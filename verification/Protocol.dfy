/** The constants and messages of include/common/constants.hpp and include/net/protocol.hpp. */
module Protocol {
  import opened Base

  const PROTOCOL_VERSION: u16 := 1
  const DEFAULT_CHUNK_SIZE: u32 := 64 * 1024
  const MAX_FILENAME_LENGTH: nat := 255
  const MAX_PEER_NAME_LENGTH: nat := 64
  /** A continuation request may not list more indexes than this. */
  const MAX_CHUNK_INDEXES: nat := 1000000

  datatype FileManifest = FileManifest(
    filename: ByteString,
    fileSize: u64,
    chunkSize: u32,
    chunkCount: u64,
    fileSha256: Bytes,
    protocolVersion: u16,
    sessionId: u64)

  datatype ChunkHeader = ChunkHeader(sessionId: u64, chunkIndex: u64, byteOffset: u64, payloadSize: u32)

  datatype ContinueRequest = ContinueRequest(sessionId: u64, totalChunks: u64, missing: seq<u64>)

  datatype HashPacket = HashPacket(sessionId: u64, sha256Hex: ByteString)
}
