/** The file manifest: a length-prefixed frame (src/transfer/manifest_codec.cpp). */
module ManifestCodec {
  import opened Base
  import opened Protocol
  import opened Chunks
  import BigEndian

  const MAGIC: u32 := 0x5042464d
  const HEADER_SIZE: nat := 38
  const NO_DIGEST: Bytes := [
    0, 0, 0, 0, 0, 0, 0, 0, 0, 0, 0, 0, 0, 0, 0, 0, 0, 0, 0, 0, 0, 0, 0, 0, 0, 0, 0, 0, 0, 0, 0, 0]

  /** The thirty-eight bytes before the name, with the given flags. */
  function Header(m: FileManifest, flags: Bytes): (b: Bytes)
    requires |flags| == 2
    ensures |b| == HEADER_SIZE
  {
    BigEndian.Encode(MAGIC, 4) + BigEndian.Encode(m.protocolVersion, 2) + BigEndian.Encode(|m.filename|, 2) +
    BigEndian.Encode(m.fileSize, 8) + BigEndian.Encode(m.chunkSize, 4) + BigEndian.Encode(m.chunkCount, 8) +
    BigEndian.Encode(m.sessionId, 8) + flags
  }

  function Frame(m: FileManifest, flags: Bytes): (f: Bytes)
    requires |flags| == 2
    ensures |f| == 4 + HEADER_SIZE + |m.filename|
  {
    BigEndian.Encode(HEADER_SIZE + |m.filename|, 4) + (Header(m, flags) + ToBytes(m.filename))
  }

  /** Empty, which the sender treats as an error, when the name is too long. */
  function Encode(m: FileManifest): Bytes {
    if |m.filename| > MAX_FILENAME_LENGTH then [] else Frame(m, [0, 0])
  }

  /** The fields of a payload whose first thirty-eight bytes are the header. */
  function Fields(p: Bytes): FileManifest
    requires |p| >= HEADER_SIZE
  {
    FileManifest(FromBytes(p[38..]), BigEndian.Decode64(p[8..16]), BigEndian.Decode32(p[16..20]),
                 BigEndian.Decode64(p[20..28]), NO_DIGEST, BigEndian.Decode16(p[4..6]), BigEndian.Decode64(p[28..36]))
  }

  function Decode(f: Bytes): Option<FileManifest> {
    if |f| < 4 then None
    else
      var size := BigEndian.Decode32(f[0..4]);
      if size < HEADER_SIZE || size > HEADER_SIZE + MAX_FILENAME_LENGTH || |f| != 4 + size then None
      else
        var p := f[4..];
        if BigEndian.Decode32(p[0..4]) != MAGIC then None
        else
          var m, nameSize := Fields(p), BigEndian.Decode16(p[6..8]);
          if m.protocolVersion != PROTOCOL_VERSION || nameSize == 0 || nameSize > MAX_FILENAME_LENGTH ||
             HEADER_SIZE + nameSize != |p| || m.chunkSize == 0 ||
             m.chunkCount != ChunkCount(m.fileSize, m.chunkSize) then None
          else Some(m)
  }

  /** The manifests that survive the trip. */
  predicate Acceptable(m: FileManifest) {
    m.protocolVersion == PROTOCOL_VERSION && 1 <= |m.filename| <= MAX_FILENAME_LENGTH &&
    m.chunkSize > 0 && m.chunkCount == ChunkCount(m.fileSize, m.chunkSize) && m.fileSha256 == NO_DIGEST
  }

  lemma HeaderFields(m: FileManifest, flags: Bytes)
    requires |m.filename| <= MAX_FILENAME_LENGTH && |flags| == 2
    ensures var p := Header(m, flags) + ToBytes(m.filename);
            Fields(p) == m.(fileSha256 := NO_DIGEST) &&
            BigEndian.Decode32(p[0..4]) == MAGIC && BigEndian.Decode16(p[6..8]) == |m.filename|
  {
    hide BigEndian.Encode, BigEndian.Decode;
    var p := Header(m, flags) + ToBytes(m.filename);
    assert p[0..4] == BigEndian.Encode(MAGIC, 4);
    assert p[4..6] == BigEndian.Encode(m.protocolVersion, 2);
    assert p[6..8] == BigEndian.Encode(|m.filename|, 2);
    assert p[8..16] == BigEndian.Encode(m.fileSize, 8);
    assert p[16..20] == BigEndian.Encode(m.chunkSize, 4);
    assert p[20..28] == BigEndian.Encode(m.chunkCount, 8);
    assert p[28..36] == BigEndian.Encode(m.sessionId, 8);
    assert p[38..] == ToBytes(m.filename);
    BigEndian.RoundTrip32(MAGIC);
    BigEndian.RoundTrip16(m.protocolVersion);
    BigEndian.RoundTrip16(|m.filename|);
    BigEndian.RoundTrip64(m.fileSize);
    BigEndian.RoundTrip32(m.chunkSize);
    BigEndian.RoundTrip64(m.chunkCount);
    BigEndian.RoundTrip64(m.sessionId);
    FromToBytes(m.filename);
  }

  lemma HeaderCanonical(p: Bytes)
    requires |p| >= HEADER_SIZE && BigEndian.Decode32(p[0..4]) == MAGIC
    requires BigEndian.Decode16(p[6..8]) == |p| - HEADER_SIZE
    ensures p == Header(Fields(p), p[36..38]) + ToBytes(Fields(p).filename)
  {
    hide BigEndian.Encode, BigEndian.Decode;
    BigEndian.EncodeDecode(p[0..4]);
    BigEndian.EncodeDecode(p[4..6]);
    BigEndian.EncodeDecode(p[6..8]);
    BigEndian.EncodeDecode(p[8..16]);
    BigEndian.EncodeDecode(p[16..20]);
    BigEndian.EncodeDecode(p[20..28]);
    BigEndian.EncodeDecode(p[28..36]);
    assert p == p[0..4] + p[4..6] + p[6..8] + p[8..16] + p[16..20] + p[20..28] + p[28..36] + p[36..38] + p[38..];
  }

  /**
   * A frame decodes to a manifest exactly when the manifest is acceptable and the
   * frame is its frame, up to the two flag bytes that the decoder ignores.
   */
  lemma Bijection(m: FileManifest, f: Bytes)
    ensures Decode(f) == Some(m) <==> Acceptable(m) && exists flags: Bytes :: |flags| == 2 && f == Frame(m, flags)
  {
    if Decode(f) == Some(m) {
      DecodedFrame(m, f);
    }
    if Acceptable(m) && exists flags: Bytes :: |flags| == 2 && f == Frame(m, flags) {
      var flags: Bytes :| |flags| == 2 && f == Frame(m, flags);
      FrameDecodes(m, flags);
    }
  }

  lemma FrameDecodes(m: FileManifest, flags: Bytes)
    requires Acceptable(m) && |flags| == 2
    ensures Decode(Frame(m, flags)) == Some(m)
  {
    hide BigEndian.Encode, BigEndian.Decode, Header, Fields, ChunkCount;
    var f := Frame(m, flags);
    assert f[0..4] == BigEndian.Encode(HEADER_SIZE + |m.filename|, 4);
    BigEndian.RoundTrip32(HEADER_SIZE + |m.filename|);
    assert f[4..] == Header(m, flags) + ToBytes(m.filename);
    HeaderFields(m, flags);
  }

  lemma DecodedFrame(m: FileManifest, f: Bytes)
    requires Decode(f) == Some(m)
    ensures Acceptable(m) && f == Frame(m, f[40..42])
  {
    hide BigEndian.Encode, BigEndian.Decode, Header, ChunkCount;
    var p := f[4..];
    BigEndian.EncodeDecode(f[0..4]);
    HeaderCanonical(p);
    assert p[36..38] == f[40..42];
    assert f == f[0..4] + p;
  }

  /** What the sender writes, the receiver reads back. */
  lemma RoundTrip(m: FileManifest)
    requires Acceptable(m)
    ensures Decode(Encode(m)) == Some(m)
  {
    FrameDecodes(m, [0, 0]);
  }

  method Serialize(m: FileManifest) returns (frame: Bytes)
    ensures frame == Encode(m)
  {
    hide BigEndian.Encode;
    if |m.filename| > MAX_FILENAME_LENGTH {
      return [];
    }
    var payload := BigEndian.Append([], MAGIC, 4);
    payload := BigEndian.Append(payload, m.protocolVersion, 2);
    payload := BigEndian.Append(payload, |m.filename|, 2);
    payload := BigEndian.Append(payload, m.fileSize, 8);
    payload := BigEndian.Append(payload, m.chunkSize, 4);
    payload := BigEndian.Append(payload, m.chunkCount, 8);
    payload := BigEndian.Append(payload, m.sessionId, 8);
    payload := payload + [0, 0];
    payload := payload + ToBytes(m.filename);
    assert payload == Header(m, [0, 0]) + ToBytes(m.filename);
    frame := BigEndian.Append([], |payload|, 4);
    frame := frame + payload;
  }

  method Deserialize(frame: Bytes) returns (manifest: Option<FileManifest>)
    ensures manifest == Decode(frame)
  {
    hide BigEndian.Decode, ChunkCount;
    if |frame| < 4 {
      return None;
    }
    var size, offset := BigEndian.Read(frame, 0, 4);
    if size < HEADER_SIZE || size > HEADER_SIZE + MAX_FILENAME_LENGTH || |frame| != 4 + size {
      return None;
    }
    var p := frame[4..];
    var magic, version, nameSize, fileSize, chunkSize, chunkCount, sessionId, flags;
    magic, offset := BigEndian.Read(p, 0, 4);
    if magic != MAGIC {
      return None;
    }
    version, offset := BigEndian.Read(p, offset, 2);
    nameSize, offset := BigEndian.Read(p, offset, 2);
    fileSize, offset := BigEndian.Read(p, offset, 8);
    chunkSize, offset := BigEndian.Read(p, offset, 4);
    chunkCount, offset := BigEndian.Read(p, offset, 8);
    sessionId, offset := BigEndian.Read(p, offset, 8);
    flags, offset := BigEndian.Read(p, offset, 2);
    assert version == BigEndian.Decode16(p[4..6]) && nameSize == BigEndian.Decode16(p[6..8]);
    assert fileSize == BigEndian.Decode64(p[8..16]) && chunkSize == BigEndian.Decode32(p[16..20]);
    assert chunkCount == BigEndian.Decode64(p[20..28]) && sessionId == BigEndian.Decode64(p[28..36]);
    if version != PROTOCOL_VERSION || nameSize == 0 || nameSize > MAX_FILENAME_LENGTH ||
       offset + nameSize != |p| || chunkSize == 0 {
      return None;
    }
    if chunkCount != ChunkCount(fileSize, chunkSize) {
      return None;
    }
    return Some(FileManifest(FromBytes(p[offset..]), fileSize, chunkSize, chunkCount, NO_DIGEST, version, sessionId));
  }

  // ---------------------------------------------------------------- the bytes on the wire

  /** Where each field of a manifest is in its frame. */
  lemma Layout(m: FileManifest)
    requires Acceptable(m)
    ensures var f, n := Encode(m), |m.filename|;
            |f| == 42 + n && BigEndian.Number4(f, 0) == 38 + n &&
            f[4..8] == ToBytes("PBFM") && f[8] == 0 && f[9] == 1 && BigEndian.Number2(f, 10) == n &&
            BigEndian.Number8(f, 12) == m.fileSize && BigEndian.Number4(f, 20) == m.chunkSize &&
            BigEndian.Number8(f, 24) == m.chunkCount && BigEndian.Number8(f, 32) == m.sessionId &&
            f[40] == 0 && f[41] == 0 && f[42..] == ToBytes(m.filename)
  {
    hide BigEndian.Encode, ChunkCount, BigEndian.Number2, BigEndian.Number4, BigEndian.Number8;
    var f, n := Encode(m), |m.filename|;
    assert f[0..4] == BigEndian.Encode(38 + n, 4);
    assert f[4..8] == BigEndian.Encode(MAGIC, 4);
    assert f[8..10] == BigEndian.Encode(1, 2);
    assert f[10..12] == BigEndian.Encode(n, 2);
    assert f[12..20] == BigEndian.Encode(m.fileSize, 8);
    assert f[20..24] == BigEndian.Encode(m.chunkSize, 4);
    assert f[24..32] == BigEndian.Encode(m.chunkCount, 8);
    assert f[32..40] == BigEndian.Encode(m.sessionId, 8);
    assert f[40..42] == [0, 0];
    BigEndian.Field4(f, 0, 38 + n);
    BigEndian.Field2(f, 10, n);
    BigEndian.Field8(f, 12, m.fileSize);
    BigEndian.Field4(f, 20, m.chunkSize);
    BigEndian.Field8(f, 24, m.chunkCount);
    BigEndian.Field8(f, 32, m.sessionId);
    VersionBytes();
    MagicBytes();
    assert f[8] == f[8..10][0] && f[9] == f[8..10][1] && f[40] == f[40..42][0] && f[41] == f[40..42][1];
  }

  lemma VersionBytes()
    ensures BigEndian.Encode(1, 2) == [0, 1]
  {
  }

  lemma MagicBytes()
    ensures BigEndian.Encode(MAGIC, 4) == ToBytes("PBFM")
  {
    BigEndian.Spells(MAGIC, "PBFM");
  }

  /** Exactly these manifests arrive as they were sent. */
  lemma ArrivesExactly(m: FileManifest)
    ensures Decode(Encode(m)) == Some(m) <==>
            m.protocolVersion == 1 && 1 <= |m.filename| <= 255 && m.chunkSize > 0 && m.fileSha256 == NO_DIGEST &&
            m.chunkCount == (m.fileSize + m.chunkSize - 1) % 0x1_0000_0000_0000_0000 / m.chunkSize
  {
    hide Decode, Encode;
    Bijection(m, Encode(m));
    if Acceptable(m) {
      RoundTrip(m);
    }
  }
}
