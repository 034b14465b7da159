/** The sending program after its connection is up (apps/sender.cpp). */
module Sender {
  import opened Base
  import opened Protocol
  import opened Chunks
  import opened TcpSocket
  import opened Transfer
  import opened Wire
  import TransferTrust
  import ManifestCodec
  import ChunkCodec
  import ContinuationCodec
  import HashCodec
  import Sha256
  import Sha256Spec

  /** send_file_manifest: a manifest whose name is too long is not sent. */
  method Offer(socket: TcpSocket, m: FileManifest) returns (ok: bool)
    modifies socket`outbound, socket`faulty
    ensures old(socket.outbound) <= socket.outbound <= old(socket.outbound) + ManifestCodec.Encode(m)
    ensures ok ==> socket.outbound == old(socket.outbound) + ManifestCodec.Encode(m)
    ensures ok ==> socket.faulty == old(socket.faulty)
    ensures !ok ==> !socket.open || socket.faulty || ManifestCodec.Encode(m) == []
  {
    hide ManifestCodec.Encode;
    var frame := ManifestCodec.Serialize(m);
    if frame == [] {
      return false;
    }
    ok := socket.SendAll(frame);
  }

  lemma ReadableInRange(cfg: Config, todo: seq<u64>)
    requires Consistent(cfg) && InRange(cfg, todo)
    ensures AllReadable(cfg, todo)
  {
    hide Consistent, Payload;
    forall k | 0 <= k < |todo|
      ensures Payload(cfg, todo[k]).Some?
    {
      TransferTrust.PayloadIsSlice(cfg, todo[k]);
    }
  }

  lemma {:induction false} StreamPrefix(cfg: Config, todo: seq<u64>, i: nat)
    requires AllReadable(cfg, todo) && i <= |todo|
    ensures AllReadable(cfg, todo[..i]) && ChunkStream(cfg, todo[..i]) <= ChunkStream(cfg, todo)
    decreases |todo|
  {
    hide Payload, ChunkBytes;
    if i > 0 {
      StreamPrefix(cfg, todo[1..], i - 1);
      assert todo[..i][1..] == todo[1..][..i - 1];
    }
  }

  /** One chunk: seek, read, header, payload. */
  method SendChunk(socket: TcpSocket, cfg: Config, file: Sha256.InputStream, i: u64) returns (ok: bool)
    requires file.Valid() && !file.bad && file.content == cfg.source && PayloadSize(cfg.manifest, i) > 0
    modifies socket`outbound, socket`faulty, file
    ensures file.Valid()
    ensures ok ==> Payload(cfg, i).Some? && socket.outbound == old(socket.outbound) + ChunkBytes(cfg, i)
    ensures Payload(cfg, i).Some? ==>
              old(socket.outbound) <= socket.outbound <= old(socket.outbound) + ChunkBytes(cfg, i)
    ensures Payload(cfg, i).None? ==> socket.outbound == old(socket.outbound)
    ensures ok ==> socket.faulty == old(socket.faulty) && !file.bad
    ensures !ok ==> !socket.open || socket.faulty || file.bad || Payload(cfg, i).None?
  {
    hide ChunkCodec.Encode, ByteOffset, PayloadSize;
    var m := cfg.manifest;
    var byteOffset, payloadSize := ByteOffset(m, i), PayloadSize(m, i);
    file.Seek(byteOffset);
    if file.bad {
      return false;
    }
    var buffer := file.Read(payloadSize);
    if |buffer| != payloadSize {
      return false;
    }
    assert Payload(cfg, i) == Some(buffer);
    var header := ChunkCodec.Serialize(ChunkHeader(m.sessionId, i, byteOffset, payloadSize));
    ok := socket.SendAll(header);
    if !ok {
      return false;
    }
    ok := socket.SendAll(buffer);
    assert header + buffer == ChunkBytes(cfg, i);
  }

  lemma ChunkNotEmpty(cfg: Config, i: u64)
    requires Consistent(cfg) && i < cfg.manifest.chunkCount
    ensures PayloadSize(cfg.manifest, i) > 0
  {
    hide Planned, PayloadSize, ByteOffset;
    StartInFile(cfg.manifest, i);
    PayloadIsExtent(cfg.manifest, i);
  }

  method SendFileChunks(socket: TcpSocket, cfg: Config, file: Sha256.InputStream, indexes: seq<u64>) returns (ok: bool)
    requires Consistent(cfg) && InRange(cfg, indexes)
    requires file.Valid() && file.content == cfg.source
    modifies socket`outbound, socket`faulty, file
    ensures file.Valid() && AllReadable(cfg, indexes)
    ensures old(socket.outbound) <= socket.outbound <= old(socket.outbound) + ChunkStream(cfg, indexes)
    ensures ok ==> socket.outbound == old(socket.outbound) + ChunkStream(cfg, indexes)
    ensures ok ==> socket.faulty == old(socket.faulty) && !file.bad
    ensures !ok ==> !socket.open || socket.faulty || file.bad
  {
    hide Consistent, Payload, PayloadSize, ChunkBytes, ChunkStream;
    ReadableInRange(cfg, indexes);
    file.Reopen();
    if file.bad {
      return false;
    }
    ghost var start := socket.outbound;
    NoChunks(cfg, indexes[..0]);
    for i := 0 to |indexes|
      invariant AllReadable(cfg, indexes[..i]) && file.Valid() && !file.bad
      invariant socket.outbound == start + ChunkStream(cfg, indexes[..i]) && socket.faulty == old(socket.faulty)
    {
      StreamPrefix(cfg, indexes, i + 1);
      assert indexes[..i + 1] == indexes[..i] + [indexes[i]];
      ChunkStreamAppend(cfg, indexes[..i], indexes[i]);
      ChunkNotEmpty(cfg, indexes[i]);
      ok := SendChunk(socket, cfg, file, indexes[i]);
      if !ok {
        return false;
      }
    }
    assert indexes[..|indexes|] == indexes;
    return true;
  }

  lemma NoChunks(cfg: Config, todo: seq<u64>)
    requires todo == []
    ensures AllReadable(cfg, todo) && ChunkStream(cfg, todo) == []
  {
  }

  /**
   * The sender from the continuation request on. Nothing is sent for a request that
   * does not arrive whole or is not valid; for a valid one, the bytes sent are a
   * prefix of the whole reply, and all of it unless the connection or the source file is disturbed.
   */
  method Serve(socket: TcpSocket, cfg: Config, file: Sha256.InputStream, expectedHash: string) returns (ok: bool)
    requires Consistent(cfg) && expectedHash == Sha256Spec.Sha256Hex(cfg.source)
    requires file.Valid() && file.content == cfg.source
    modifies socket`inbound, socket`outbound, socket`faulty, file
    ensures var r := ReadRequest(old(socket.inbound));
            if r.None? || !ContinuationCodec.Valid(cfg.manifest, r.value.0) then
              !ok && socket.outbound == old(socket.outbound)
            else
              AllReadable(cfg, r.value.0.missing) &&
              old(socket.outbound) <= socket.outbound <= old(socket.outbound) + ReplyBytes(cfg, r.value.0.missing) &&
              (if ok then socket.outbound == old(socket.outbound) + ReplyBytes(cfg, r.value.0.missing)
               else !socket.open || socket.faulty || file.bad)
  {
    hide Consistent, ReadRequest, Sha256Spec.Sha256Hex, Payload, ChunkStream, HashCodec.Encode;
    ghost var requested := ReadRequest(socket.inbound);
    if requested.Some? && ContinuationCodec.Valid(cfg.manifest, requested.value.0) {
      ReadableInRange(cfg, requested.value.0.missing);
    }
    var request := ReceiveContinueRequest(socket);
    if request.None? {
      return false;
    }
    var valid := ContinuationCodec.Validate(cfg.manifest, request.value);
    if !valid {
      return false;
    }
    ok := SendFileChunks(socket, cfg, file, request.value.missing);
    if !ok {
      return false;
    }
    Sha256.DigestIsSha256Hex(cfg.source);
    Sha256.HexIsByteString(expectedHash);
    var payload := HashCodec.Serialize(HashPacket(cfg.manifest.sessionId, expectedHash));
    if payload == [] {
      // A digest always fits the packet, so the error return here is never taken.
      HashReads(DigestPacket(cfg), []);
      assert false;
    }
    ok := socket.SendAll(payload);
  }
}
