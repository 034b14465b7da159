/**
 * The chunk arithmetic that the sender and the receiver each compute in wrapping
 * 64-bit integers: chunk counts, offsets, payload sizes and header validation.
 */
module Chunks {
  import opened Base
  import opened Protocol
  import opened Indexes

  // ---------------------------------------------------------------- the code's arithmetic

  /** chunk_count, and the count the manifest decoder recomputes. */
  function ChunkCount(size: u64, chunkSize: u32): u64 {
    if chunkSize == 0 then 0 else Wrap64(size + chunkSize - 1) / chunkSize
  }

  function ByteOffset(m: FileManifest, index: u64): u64 {
    Wrap64(index * m.chunkSize)
  }

  /** payload_size_for_chunk of both programs. */
  function PayloadSize(m: FileManifest, index: u64): u32 {
    Wrap32(Min(Wrap64(m.fileSize - ByteOffset(m, index)), m.chunkSize))
  }

  /** The header the sender writes before a chunk. */
  function SenderHeader(m: FileManifest, index: u64): ChunkHeader {
    ChunkHeader(m.sessionId, index, ByteOffset(m, index), PayloadSize(m, index))
  }

  predicate ValidateChunkHeader(m: FileManifest, h: ChunkHeader) {
    if m.chunkSize == 0 || h.chunkIndex >= m.chunkCount || h.payloadSize == 0 ||
       h.payloadSize > m.chunkSize || h.sessionId != m.sessionId then
      false
    else
      var expectedOffset := ByteOffset(m, h.chunkIndex);
      if h.byteOffset != expectedOffset || h.byteOffset >= m.fileSize ||
         Wrap64(h.byteOffset + h.payloadSize) > m.fileSize then
        false
      else
        var expectedSize :=
          if Wrap64(h.chunkIndex + 1) == m.chunkCount then Wrap64(m.fileSize - h.byteOffset)
          else m.chunkSize;
        h.payloadSize == expectedSize
  }

  // ---------------------------------------------------------------- when nothing wraps

  /** The chunk fields of a manifest the decoder accepts. */
  predicate Counted(m: FileManifest) {
    m.chunkSize > 0 && m.chunkCount == ChunkCount(m.fileSize, m.chunkSize)
  }

  /** The same, with a chunk count that did not wrap. */
  predicate Planned(m: FileManifest) {
    Counted(m) && m.fileSize + m.chunkSize - 1 < TWO_64
  }

  /** Chunk `i` occupies the bytes from Start to End. */
  function Start(m: FileManifest, i: nat): nat {
    i * m.chunkSize
  }

  function End(m: FileManifest, i: nat): nat {
    Min((i + 1) * m.chunkSize, m.fileSize)
  }

  lemma MulMono(i: nat, j: nat, c: nat)
    requires i <= j
    ensures i * c <= j * c
  {
  }

  lemma Quotient(x: nat, c: nat)
    requires c > 0
    ensures x == (x / c) * c + x % c && 0 <= x % c < c
  {
  }

  /** The count is the ceiling of the quotient. */
  lemma CountIsCeiling(m: FileManifest)
    requires Planned(m)
    ensures m.fileSize <= m.chunkCount * m.chunkSize
    ensures m.chunkCount > 0 ==> (m.chunkCount - 1) * m.chunkSize < m.fileSize
    ensures m.chunkCount == 0 <==> m.fileSize == 0
  {
    var x, c := m.fileSize + m.chunkSize - 1, m.chunkSize;
    assert m.chunkCount == x / c;
    CeilingQuotient(m.fileSize, c, x / c);
  }

  lemma CeilingQuotient(size: nat, c: nat, q: nat)
    requires c > 0 && q == (size + c - 1) / c
    ensures size <= q * c
    ensures q > 0 ==> (q - 1) * c < size
    ensures q == 0 <==> size == 0
  {
    Quotient(size + c - 1, c);
    assert (q - 1) * c == q * c - c;
  }

  /** The extents of a plan start below the file size, so no product or sum of theirs wraps. */
  lemma StartInFile(m: FileManifest, i: nat)
    requires Planned(m) && i < m.chunkCount
    ensures Start(m, i) < End(m, i) <= m.fileSize
    ensures i + 1 < m.chunkCount ==> End(m, i) == Start(m, i + 1) == Start(m, i) + m.chunkSize
    ensures i + 1 == m.chunkCount ==> End(m, i) == m.fileSize
    ensures End(m, i) - Start(m, i) <= m.chunkSize
  {
    var c := m.chunkSize;
    CountIsCeiling(m);
    MulMono(i, m.chunkCount - 1, c);
    assert (i + 1) * c == i * c + c;
    if i + 1 < m.chunkCount {
      MulMono(i + 1, m.chunkCount - 1, c);
    }
  }

  lemma PayloadIsExtent(m: FileManifest, i: u64)
    requires Planned(m) && i < m.chunkCount
    ensures ByteOffset(m, i) == Start(m, i)
    ensures PayloadSize(m, i) == End(m, i) - Start(m, i)
  {
    hide Wrap64, Planned;
    StartInFile(m, i);
    WrapSmall(i * m.chunkSize);
    WrapSmall(m.fileSize - i * m.chunkSize);
    assert (i + 1) * m.chunkSize == i * m.chunkSize + m.chunkSize;
  }

  /** The receiver accepts exactly one header per index, the one the sender builds. */
  lemma HeaderAgreement(m: FileManifest, h: ChunkHeader)
    requires Planned(m)
    ensures ValidateChunkHeader(m, h) <==> h.chunkIndex < m.chunkCount && h == SenderHeader(m, h.chunkIndex)
  {
    hide Wrap64, ByteOffset, PayloadSize, ChunkCount;
    if h.chunkIndex < m.chunkCount {
      StartInFile(m, h.chunkIndex);
      PayloadIsExtent(m, h.chunkIndex);
      WrapSmall(h.chunkIndex + 1);
      if h.byteOffset < m.fileSize && h.payloadSize <= m.chunkSize {
        WrapSmall(m.fileSize - h.byteOffset);
        WrapSmall(h.byteOffset + h.payloadSize);
      }
    }
  }

  /**
   * The count wraps for sizes close to 2^64, and the code does not notice. The
   * chunks then fall short of the file: they cover it exactly when the sum the
   * decoder computes fits in 64 bits.
   */
  lemma ChunksCoverFile(size: u64, chunkSize: u32)
    requires chunkSize > 0
    ensures ChunkCount(size, chunkSize) * chunkSize >= size <==> size + chunkSize - 1 < TWO_64
  {
    Quotient(Wrap64(size + chunkSize - 1), chunkSize);
  }

  /** A count that wraps is zero, so a manifest that has chunks is sound. */
  lemma ChunksArePlanned(m: FileManifest)
    requires Counted(m) && m.chunkCount > 0
    ensures Planned(m)
  {
    if m.fileSize + m.chunkSize - 1 >= TWO_64 {
      WrappedCountIsZero(m);
    }
  }

  /** Even so, no manifest the decoder accepts lets a chunk be written past the end of the file. */
  lemma AcceptedHeaderInFile(m: FileManifest, h: ChunkHeader)
    requires Counted(m) && ValidateChunkHeader(m, h)
    ensures h.byteOffset + h.payloadSize <= m.fileSize
  {
    hide Counted, Planned, ByteOffset, PayloadSize;
    ChunksArePlanned(m);
    HeaderAgreement(m, h);
    StartInFile(m, h.chunkIndex);
    PayloadIsExtent(m, h.chunkIndex);
  }

  lemma WrappedCountIsZero(m: FileManifest)
    requires m.chunkSize > 0 && m.fileSize + m.chunkSize - 1 >= TWO_64
    ensures ChunkCount(m.fileSize, m.chunkSize) == 0
  {
  }

  lemma ChunkCountWraps()
    ensures ChunkCount(0xffff_ffff_ffff_ffff, 0x1_0000) == 0
  {
  }

  // ---------------------------------------------------------------- the partition

  predicate InExtent(m: FileManifest, i: nat, b: nat) {
    Start(m, i) <= b < End(m, i)
  }

  /** Every byte of the file lies in exactly one chunk. */
  lemma ExtentsPartition(m: FileManifest, b: nat) returns (i: nat)
    requires Planned(m) && b < m.fileSize
    ensures i < m.chunkCount && InExtent(m, i, b)
    ensures forall j: nat :: j < m.chunkCount && InExtent(m, j, b) ==> j == i
  {
    hide ChunkCount;
    var c := m.chunkSize;
    i := b / c;
    Quotient(b, c);
    assert (i + 1) * c == i * c + c;
    CountIsCeiling(m);
    if i >= m.chunkCount {
      MulMono(m.chunkCount, i, c);
    }
    forall j: nat | j < m.chunkCount && InExtent(m, j, b)
      ensures j == i
    {
      SameExtent(c, i, j, b);
    }
  }

  lemma SameExtent(c: nat, i: nat, j: nat, b: nat)
    requires i * c <= b < (i + 1) * c && j * c <= b < (j + 1) * c
    ensures i == j
  {
    if j < i {
      MulMono(j + 1, i, c);
    } else if j > i {
      MulMono(i + 1, j, c);
    }
  }

  /** The bytes of a list of chunks, without wrapping. */
  function TotalBytes(m: FileManifest, xs: seq<u64>): nat {
    if xs == [] then 0 else TotalBytes(m, xs[..|xs| - 1]) + PayloadSize(m, xs[|xs| - 1])
  }

  /** bytes_for_chunks: a wrapping running total. */
  method BytesForChunks(m: FileManifest, indexes: seq<u64>) returns (total: u64)
    ensures total == Wrap64(TotalBytes(m, indexes))
  {
    hide Wrap64, PayloadSize;
    WrapSmall(0);
    total := 0;
    for i := 0 to |indexes|
      invariant total == Wrap64(TotalBytes(m, indexes[..i]))
    {
      assert indexes[..i + 1][..i] == indexes[..i];
      WrapAdd(TotalBytes(m, indexes[..i]), PayloadSize(m, indexes[i]));
      total := Wrap64((total as int) + PayloadSize(m, indexes[i]));
    }
    assert indexes[..|indexes|] == indexes;
  }

  lemma TotalAppend(m: FileManifest, xs: seq<u64>, i: u64)
    ensures TotalBytes(m, xs + [i]) == TotalBytes(m, xs) + PayloadSize(m, i)
  {
    hide PayloadSize;
    assert (xs + [i])[..|xs|] == xs;
  }

  /** One more chunk adds its extent. */
  lemma PrefixGrows(m: FileManifest, i: u64)
    requires Planned(m) && i < m.chunkCount
    ensures Min(i * m.chunkSize, m.fileSize) + PayloadSize(m, i) == Min((i + 1) * m.chunkSize, m.fileSize)
  {
    hide Planned, PayloadSize;
    StartInFile(m, i);
    PayloadIsExtent(m, i);
  }

  /** A set of chunks and its complement together hold the first `k` chunks' bytes. */
  lemma {:induction false} ComplementBytes(m: FileManifest, done: set<u64>, k: nat)
    requires Planned(m) && k <= m.chunkCount
    ensures TotalBytes(m, Ascending(done, k)) + TotalBytes(m, Ascending(Below(m.chunkCount) - done, k)) ==
            Min(k * m.chunkSize, m.fileSize)
  {
    hide PayloadSize, Planned, TotalBytes, Min;
    if k == 0 {
      NoBytes(m);
    } else {
      ComplementBytes(m, done, k - 1);
      PrefixGrows(m, k - 1);
      var owner := if k - 1 in done then done else Below(m.chunkCount) - done;
      TotalAppend(m, Ascending(owner, k - 1), k - 1);
    }
  }

  lemma NoBytes(m: FileManifest)
    ensures TotalBytes(m, []) == 0 && Min(0 * m.chunkSize, m.fileSize) == 0
  {
  }

  /** Completed and missing bytes always add up to the file, so neither running total wraps. */
  lemma CompletedPlusMissingBytes(m: FileManifest, done: set<u64>)
    requires Planned(m)
    ensures var have, want := TotalBytes(m, Ascending(done, m.chunkCount)),
                              TotalBytes(m, Ascending(Below(m.chunkCount) - done, m.chunkCount));
            have + want == m.fileSize && Wrap64(have) == have && Wrap64(want) == want
  {
    hide Planned, TotalBytes, Wrap64;
    ComplementBytes(m, done, m.chunkCount);
    CountIsCeiling(m);
    WrapSmall(TotalBytes(m, Ascending(done, m.chunkCount)));
    WrapSmall(TotalBytes(m, Ascending(Below(m.chunkCount) - done, m.chunkCount)));
  }
}
