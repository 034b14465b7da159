/**
 * Messages on the byte stream. Each reader takes one message off the front of
 * the stream, as the receive functions of the codecs do, and the writers put a
 * whole transfer on it.
 */
module Wire {
  import opened Base
  import opened Protocol
  import opened Chunks
  import opened TcpSocket
  import opened Transfer
  import BigEndian
  import ManifestCodec
  import ChunkCodec
  import ContinuationCodec
  import HashCodec
  import Sha256
  import Sha256Spec

  // ---------------------------------------------------------------- readers

  /** receive_file_manifest: the length first, then the rest of the frame. */
  function ReadManifest(stream: Bytes): Option<(FileManifest, Bytes)> {
    if |stream| < 4 then None
    else
      var size := BigEndian.Decode32(stream[0..4]);
      if size < ManifestCodec.HEADER_SIZE || size > ManifestCodec.HEADER_SIZE + MAX_FILENAME_LENGTH ||
         |stream| < 4 + size then None
      else
        match ManifestCodec.Decode(stream[..4 + size])
        case None => None
        case Some(m) => Some((m, stream[4 + size..]))
  }

  /** receive_chunk_header. */
  function ReadHeader(stream: Bytes): Option<(ChunkHeader, Bytes)> {
    if |stream| < ChunkCodec.SIZE then None
    else
      match ChunkCodec.Decode(stream[..ChunkCodec.SIZE])
      case None => None
      case Some(h) => Some((h, stream[ChunkCodec.SIZE..]))
  }

  /** receive_continue_request: the fixed part first, then as many indexes as it announces. */
  function ReadRequest(stream: Bytes): Option<(ContinueRequest, Bytes)> {
    if |stream| < ContinuationCodec.FIXED_SIZE then None
    else
      var count := BigEndian.Decode64(stream[20..28]);
      if count > MAX_CHUNK_INDEXES || |stream| < ContinuationCodec.FIXED_SIZE + 8 * count then None
      else
        match ContinuationCodec.Decode(stream[..ContinuationCodec.FIXED_SIZE + 8 * count])
        case None => None
        case Some(r) => Some((r, stream[ContinuationCodec.FIXED_SIZE + 8 * count..]))
  }

  /** receive_hash_packet. */
  function ReadHash(stream: Bytes): Option<(HashPacket, Bytes)> {
    if |stream| < HashCodec.SIZE then None
    else
      match HashCodec.Decode(stream[..HashCodec.SIZE])
      case None => None
      case Some(p) => Some((p, stream[HashCodec.SIZE..]))
  }

  /** The magic numbers spell the names of the messages on the wire. */
  lemma MagicsSpellNames()
    ensures BigEndian.Encode(ManifestCodec.MAGIC, 4) == ToBytes("PBFM")
    ensures BigEndian.Encode(ContinuationCodec.MAGIC, 4) == ToBytes("PBCR")
    ensures BigEndian.Encode(ChunkCodec.MAGIC, 4) == ToBytes("PBCH")
    ensures BigEndian.Encode(HashCodec.MAGIC, 4) == ToBytes("PBHS")
  {
    hide BigEndian.Encode, ToBytes;
    BigEndian.Spells(ManifestCodec.MAGIC, "PBFM");
    BigEndian.Spells(ContinuationCodec.MAGIC, "PBCR");
    BigEndian.Spells(ChunkCodec.MAGIC, "PBCH");
    BigEndian.Spells(HashCodec.MAGIC, "PBHS");
  }

  // ---------------------------------------------------------------- each message reads back

  lemma ManifestReads(m: FileManifest, rest: Bytes)
    requires ManifestCodec.Acceptable(m)
    ensures ReadManifest(ManifestCodec.Encode(m) + rest) == Some((m, rest))
  {
    hide ManifestCodec.Decode, ManifestCodec.Header, BigEndian.Encode, BigEndian.Decode, ChunkCount;
    var f := ManifestCodec.Encode(m);
    var stream := f + rest;
    var size := ManifestCodec.HEADER_SIZE + |m.filename|;
    assert stream[0..4] == f[0..4] == BigEndian.Encode(size, 4);
    BigEndian.RoundTrip32(size);
    assert stream[..4 + size] == f && stream[4 + size..] == rest;
    ManifestCodec.RoundTrip(m);
  }

  lemma HeaderReads(h: ChunkHeader, rest: Bytes)
    ensures ReadHeader(ChunkCodec.Encode(h) + rest) == Some((h, rest))
  {
    hide ChunkCodec.Encode, ChunkCodec.Decode;
    var p := ChunkCodec.Encode(h);
    assert (p + rest)[..ChunkCodec.SIZE] == p && (p + rest)[ChunkCodec.SIZE..] == rest;
    ChunkCodec.Bijection(h, p);
  }

  lemma HashReads(packet: HashPacket, rest: Bytes)
    requires Sha256.IsSha256Hex(packet.sha256Hex)
    ensures |HashCodec.Encode(packet)| == HashCodec.SIZE
    ensures ReadHash(HashCodec.Encode(packet) + rest) == Some((packet, rest))
  {
    hide HashCodec.Decode, BigEndian.Encode;
    var p := HashCodec.Encode(packet);
    assert (p + rest)[..HashCodec.SIZE] == p && (p + rest)[HashCodec.SIZE..] == rest;
    HashCodec.Bijection(packet, p);
  }

  /** A stream reads as a request exactly when it starts with the request's encoding; nothing more is consumed. */
  lemma RequestReads(r: ContinueRequest, stream: Bytes, rest: Bytes)
    ensures ReadRequest(stream) == Some((r, rest)) <==>
            |r.missing| <= MAX_CHUNK_INDEXES && stream == ContinuationCodec.Encode(r) + rest
  {
    hide ContinuationCodec.Decode, ContinuationCodec.Encode, BigEndian.Decode;
    var p := ContinuationCodec.Encode(r);
    if ReadRequest(stream) == Some((r, rest)) {
      var size := ContinuationCodec.FIXED_SIZE + 8 * BigEndian.Decode64(stream[20..28]);
      ContinuationCodec.Bijection(r, stream[..size]);
      assert stream == stream[..size] + stream[size..];
    }
    if |r.missing| <= MAX_CHUNK_INDEXES && stream == p + rest {
      ContinuationCodec.FixedPart(r);
      assert stream[20..28] == p[20..28];
      assert stream[..|p|] == p && stream[|p|..] == rest;
      ContinuationCodec.Bijection(r, p);
    }
  }

  // ---------------------------------------------------------------- a whole transfer

  /** One chunk as the sender writes it: header, then payload. */
  function ChunkBytes(cfg: Config, i: u64): Bytes
    requires Payload(cfg, i).Some?
  {
    ChunkCodec.Encode(SenderHeader(cfg.manifest, i)) + Payload(cfg, i).value
  }

  predicate AllReadable(cfg: Config, todo: seq<u64>) {
    forall k :: 0 <= k < |todo| ==> Payload(cfg, todo[k]).Some?
  }

  function ChunkStream(cfg: Config, todo: seq<u64>): Bytes
    requires AllReadable(cfg, todo)
  {
    if todo == [] then [] else ChunkBytes(cfg, todo[0]) + ChunkStream(cfg, todo[1..])
  }

  function DigestPacket(cfg: Config): (p: HashPacket)
    ensures Sha256.IsSha256Hex(p.sha256Hex)
  {
    Sha256.DigestIsSha256Hex(cfg.source);
    var hex := Sha256Spec.Sha256Hex(cfg.source);
    Sha256.HexIsByteString(hex);
    HashPacket(cfg.manifest.sessionId, hex)
  }

  /** Everything the sender writes after an accepted request. */
  function ReplyBytes(cfg: Config, todo: seq<u64>): Bytes
    requires AllReadable(cfg, todo)
  {
    ChunkStream(cfg, todo) + HashCodec.Encode(DigestPacket(cfg))
  }

  /** One pass of the receiving loop over the stream: an acceptable header with the expected index, and its payload. */
  function ReadChunk(m: FileManifest, i: u64, stream: Bytes): Option<(Bytes, Bytes)> {
    match ReadHeader(stream)
    case None => None
    case Some((h, rest)) =>
      if h.chunkIndex != i || !ValidateChunkHeader(m, h) || |rest| < h.payloadSize then None
      else Some((rest[..h.payloadSize], rest[h.payloadSize..]))
  }

  /** The receiver's reading of the chunks it asked for: their payloads and the rest of the stream. */
  function ReadChunks(m: FileManifest, todo: seq<u64>, stream: Bytes): Option<(seq<Bytes>, Bytes)>
    decreases |todo|
  {
    if todo == [] then Some(([], stream))
    else
      match ReadChunk(m, todo[0], stream)
      case None => None
      case Some((payload, rest)) =>
        match ReadChunks(m, todo[1..], rest)
        case None => None
        case Some((payloads, end)) => Some(([payload] + payloads, end))
  }

  /**
   * A header and its payload are taken for chunk `i` exactly if the header has this
   * session, this index, the chunk's place in the file and its size.
   */
  lemma ChunkReadsExactly(m: FileManifest, i: u64, h: ChunkHeader, data: Bytes, rest: Bytes)
    requires Planned(m) && |data| == h.payloadSize
    ensures ReadChunk(m, i, ChunkCodec.Encode(h) + (data + rest)) ==
            if i < m.chunkCount && h.sessionId == m.sessionId && h.chunkIndex == i && h.byteOffset == i * m.chunkSize &&
               h.payloadSize == Min(m.chunkSize, m.fileSize - i * m.chunkSize) then Some((data, rest)) else None
  {
    hide Planned, ValidateChunkHeader, ByteOffset, PayloadSize, ReadHeader, ChunkCodec.Encode;
    HeaderReads(h, data + rest);
    assert (data + rest)[..|data|] == data && (data + rest)[|data|..] == rest;
    HeaderAgreement(m, h);
    if i < m.chunkCount {
      StartInFile(m, i);
      PayloadIsExtent(m, i);
      ExtentSize(m, i);
    }
  }

  lemma ExtentSize(m: FileManifest, i: nat)
    requires Start(m, i) < End(m, i)
    ensures End(m, i) - Start(m, i) == Min(m.chunkSize, m.fileSize - i * m.chunkSize)
  {
    assert (i + 1) * m.chunkSize == i * m.chunkSize + m.chunkSize;
  }

  function Payloads(cfg: Config, todo: seq<u64>): (ps: seq<Bytes>)
    requires AllReadable(cfg, todo)
  {
    if todo == [] then [] else [Payload(cfg, todo[0]).value] + Payloads(cfg, todo[1..])
  }

  predicate InRange(cfg: Config, todo: seq<u64>) {
    forall k :: 0 <= k < |todo| ==> todo[k] < cfg.manifest.chunkCount
  }

  lemma {:induction false} ChunksRead(cfg: Config, todo: seq<u64>, rest: Bytes)
    requires Consistent(cfg) && InRange(cfg, todo) && AllReadable(cfg, todo)
    ensures ReadChunks(cfg.manifest, todo, ChunkStream(cfg, todo) + rest) == Some((Payloads(cfg, todo), rest))
  {
    hide ChunkCodec.Encode, Payload, ReadHeader, ValidateChunkHeader, Consistent, ByteOffset, PayloadSize;
    if todo == [] {
      assert ChunkStream(cfg, todo) + rest == rest;
    } else {
      var m, i, tail := cfg.manifest, todo[0], ChunkStream(cfg, todo[1..]) + rest;
      var h, data := SenderHeader(m, i), Payload(cfg, i).value;
      PayloadLength(cfg, i);
      OwnHeaderAccepted(cfg, i);
      assert ChunkStream(cfg, todo) + rest == ChunkCodec.Encode(h) + (data + tail);
      HeaderReads(h, data + tail);
      assert (data + tail)[..|data|] == data && (data + tail)[|data|..] == tail;
      ChunksRead(cfg, todo[1..], rest);
    }
  }

  lemma OwnHeaderAccepted(cfg: Config, i: u64)
    requires Consistent(cfg) && i < cfg.manifest.chunkCount
    ensures ValidateChunkHeader(cfg.manifest, SenderHeader(cfg.manifest, i))
  {
    hide Planned, ValidateChunkHeader, ByteOffset, PayloadSize;
    HeaderAgreement(cfg.manifest, SenderHeader(cfg.manifest, i));
  }

  /**
   * Whole-stream framing: everything the sender writes for an accepted request is
   * read back as exactly the manifest, the chunks and the digest, with nothing left over.
   */
  lemma TransferReadsBack(cfg: Config, todo: seq<u64>)
    requires Consistent(cfg) && ManifestCodec.Acceptable(cfg.manifest)
    requires InRange(cfg, todo) && AllReadable(cfg, todo)
    ensures var stream := ManifestCodec.Encode(cfg.manifest) + ReplyBytes(cfg, todo);
            var afterManifest := ReplyBytes(cfg, todo);
            var afterChunks := HashCodec.Encode(DigestPacket(cfg));
            ReadManifest(stream) == Some((cfg.manifest, afterManifest)) &&
            ReadChunks(cfg.manifest, todo, afterManifest) == Some((Payloads(cfg, todo), afterChunks)) &&
            ReadHash(afterChunks) == Some((DigestPacket(cfg), []))
  {
    hide ManifestCodec.Encode, ManifestCodec.Acceptable, ReadManifest, ReadHash, HashCodec.Encode, Consistent,
      Payload, DigestPacket, ChunkStream, ReadChunks;
    var packet := DigestPacket(cfg);
    ManifestReads(cfg.manifest, ReplyBytes(cfg, todo));
    ChunksRead(cfg, todo, HashCodec.Encode(packet));
    HashReads(packet, []);
    assert HashCodec.Encode(packet) + [] == HashCodec.Encode(packet);
  }

  lemma {:induction false} ChunkStreamAppend(cfg: Config, todo: seq<u64>, i: u64)
    requires AllReadable(cfg, todo + [i])
    ensures AllReadable(cfg, todo) && Payload(cfg, i).Some?
    ensures ChunkStream(cfg, todo + [i]) == ChunkStream(cfg, todo) + ChunkBytes(cfg, i)
  {
    hide Payload, ChunkBytes;
    var all := todo + [i];
    assert all[|todo|] == i && forall k :: 0 <= k < |todo| ==> all[k] == todo[k];
    if todo != [] {
      assert all[1..] == todo[1..] + [i];
      ChunkStreamAppend(cfg, todo[1..], i);
    }
  }

  // ---------------------------------------------------------------- receiving

  method ReceiveManifest(socket: TcpSocket) returns (m: Option<FileManifest>)
    modifies socket`inbound, socket`faulty
    ensures m.Some? ==> ReadManifest(old(socket.inbound)) == Some((m.value, socket.inbound))
    ensures m.Some? ==> socket.faulty == old(socket.faulty)
    ensures m.None? ==> !socket.open || socket.faulty || ReadManifest(old(socket.inbound)) == None
  {
    hide ManifestCodec.Decode, BigEndian.Decode;
    ghost var stream := socket.inbound;
    var ok, frame := socket.RecvExact(4);
    if !ok {
      return None;
    }
    var size, offset := BigEndian.Read(frame, 0, 4);
    assert frame[0..4] == stream[0..4];
    if size < ManifestCodec.HEADER_SIZE || size > ManifestCodec.HEADER_SIZE + MAX_FILENAME_LENGTH {
      return None;
    }
    var payload;
    ok, payload := socket.RecvExact(size);
    if !ok {
      return None;
    }
    assert frame + payload == stream[..4 + size] && socket.inbound == stream[4 + size..];
    m := ManifestCodec.Deserialize(frame + payload);
  }

  method ReceiveChunkHeader(socket: TcpSocket) returns (h: Option<ChunkHeader>)
    modifies socket`inbound, socket`faulty
    ensures h.Some? ==> ReadHeader(old(socket.inbound)) == Some((h.value, socket.inbound))
    ensures h.Some? ==> socket.faulty == old(socket.faulty)
    ensures h.None? ==> !socket.open || socket.faulty || ReadHeader(old(socket.inbound)) == None
  {
    hide ChunkCodec.Decode;
    var ok, payload := socket.RecvExact(ChunkCodec.SIZE);
    if !ok {
      return None;
    }
    h := ChunkCodec.Deserialize(payload);
  }

  method ReceiveContinueRequest(socket: TcpSocket) returns (r: Option<ContinueRequest>)
    modifies socket`inbound, socket`faulty
    ensures r.Some? ==> ReadRequest(old(socket.inbound)) == Some((r.value, socket.inbound))
    ensures r.Some? ==> socket.faulty == old(socket.faulty)
    ensures r.None? ==> !socket.open || socket.faulty || ReadRequest(old(socket.inbound)) == None
  {
    hide ContinuationCodec.Decode, BigEndian.Decode;
    ghost var stream := socket.inbound;
    var ok, fixedPart := socket.RecvExact(ContinuationCodec.FIXED_SIZE);
    if !ok {
      return None;
    }
    var count, offset := BigEndian.Read(fixedPart, 20, 8);
    assert fixedPart[20..28] == stream[20..28];
    if count > MAX_CHUNK_INDEXES {
      return None;
    }
    var payload := fixedPart;
    if count > 0 {
      var indexes;
      ok, indexes := socket.RecvExact(8 * count);
      if !ok {
        return None;
      }
      payload := payload + indexes;
    }
    assert payload == stream[..28 + 8 * count] && socket.inbound == stream[28 + 8 * count..];
    r := ContinuationCodec.Deserialize(payload);
  }

  method ReceiveHashPacket(socket: TcpSocket) returns (p: Option<HashPacket>)
    modifies socket`inbound, socket`faulty
    ensures p.Some? ==> ReadHash(old(socket.inbound)) == Some((p.value, socket.inbound))
    ensures p.Some? ==> socket.faulty == old(socket.faulty)
    ensures p.None? ==> !socket.open || socket.faulty || ReadHash(old(socket.inbound)) == None
  {
    hide HashCodec.Decode;
    var ok, payload := socket.RecvExact(HashCodec.SIZE);
    if !ok {
      return None;
    }
    p := HashCodec.Deserialize(payload);
  }
}
