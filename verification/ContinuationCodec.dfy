/** The continuation request: the receiver's list of missing chunks (src/transfer/continuation_codec.cpp). */
module ContinuationCodec {
  import opened Base
  import opened Protocol
  import opened Indexes
  import BigEndian

  const MAGIC: u32 := 0x50424352
  const FIXED_SIZE: nat := 28

  function EncodeIndexes(xs: seq<u64>): (b: Bytes)
    ensures |b| == 8 * |xs|
  {
    if xs == [] then [] else EncodeIndexes(xs[..|xs| - 1]) + BigEndian.Encode(xs[|xs| - 1], 8)
  }

  function DecodeIndexes(b: Bytes): (xs: seq<u64>)
    requires |b| % 8 == 0
    ensures 8 * |xs| == |b|
  {
    if b == [] then [] else DecodeIndexes(b[..|b| - 8]) + [BigEndian.Decode64(b[|b| - 8..])]
  }

  lemma {:induction false} IndexesRoundTrip(xs: seq<u64>)
    ensures DecodeIndexes(EncodeIndexes(xs)) == xs
  {
    hide BigEndian.Encode, BigEndian.Decode;
    if xs != [] {
      var b, prefix := EncodeIndexes(xs), xs[..|xs| - 1];
      assert b[..|b| - 8] == EncodeIndexes(prefix);
      assert b[|b| - 8..] == BigEndian.Encode(xs[|xs| - 1], 8);
      BigEndian.RoundTrip64(xs[|xs| - 1]);
      IndexesRoundTrip(prefix);
      assert xs == prefix + [xs[|xs| - 1]];
    }
  }

  lemma {:induction false} IndexesCanonical(b: Bytes)
    requires |b| % 8 == 0
    ensures EncodeIndexes(DecodeIndexes(b)) == b
  {
    hide BigEndian.Encode, BigEndian.Decode;
    if b != [] {
      var xs := DecodeIndexes(b);
      assert xs[..|xs| - 1] == DecodeIndexes(b[..|b| - 8]);
      IndexesCanonical(b[..|b| - 8]);
      BigEndian.EncodeDecode(b[|b| - 8..]);
      assert b == b[..|b| - 8] + b[|b| - 8..];
    }
  }

  function Encode(r: ContinueRequest): (p: Bytes)
    ensures |p| == FIXED_SIZE + 8 * |r.missing|
  {
    BigEndian.Encode(MAGIC, 4) + BigEndian.Encode(r.sessionId, 8) + BigEndian.Encode(r.totalChunks, 8) +
    BigEndian.Encode(|r.missing|, 8) + EncodeIndexes(r.missing)
  }

  function Decode(p: Bytes): Option<ContinueRequest> {
    if |p| < FIXED_SIZE || BigEndian.Decode32(p[0..4]) != MAGIC then None
    else
      var count := BigEndian.Decode64(p[20..28]);
      if count > MAX_CHUNK_INDEXES || |p| != FIXED_SIZE + 8 * count then None
      else
        Some(ContinueRequest(BigEndian.Decode64(p[4..12]), BigEndian.Decode64(p[12..20]),
                             DecodeIndexes(p[FIXED_SIZE..])))
  }

  /** The fixed part of an encoding starts with the magic and ends with the number of indexes. */
  lemma FixedPart(r: ContinueRequest)
    requires |r.missing| < TWO_64
    ensures var p := Encode(r);
            BigEndian.Decode32(p[0..4]) == MAGIC && BigEndian.Decode64(p[4..12]) == r.sessionId &&
            BigEndian.Decode64(p[12..20]) == r.totalChunks && BigEndian.Decode64(p[20..28]) == |r.missing| &&
            p[FIXED_SIZE..] == EncodeIndexes(r.missing)
  {
    hide BigEndian.Encode, BigEndian.Decode, EncodeIndexes;
    var p := Encode(r);
    assert p[0..4] == BigEndian.Encode(MAGIC, 4);
    assert p[4..12] == BigEndian.Encode(r.sessionId, 8);
    assert p[12..20] == BigEndian.Encode(r.totalChunks, 8);
    assert p[20..28] == BigEndian.Encode(|r.missing|, 8);
    BigEndian.RoundTrip32(MAGIC);
    BigEndian.RoundTrip64(r.sessionId);
    BigEndian.RoundTrip64(r.totalChunks);
    BigEndian.RoundTrip64(|r.missing|);
  }

  /** Requests of at most a million indexes and accepted payloads correspond one to one. */
  lemma Bijection(r: ContinueRequest, p: Bytes)
    ensures Decode(p) == Some(r) <==> |r.missing| <= MAX_CHUNK_INDEXES && p == Encode(r)
  {
    hide BigEndian.Encode, BigEndian.Decode, EncodeIndexes, DecodeIndexes;
    if Decode(p) == Some(r) {
      BigEndian.EncodeDecode(p[0..4]);
      BigEndian.EncodeDecode(p[4..12]);
      BigEndian.EncodeDecode(p[12..20]);
      BigEndian.EncodeDecode(p[20..28]);
      IndexesCanonical(p[FIXED_SIZE..]);
      assert p == p[0..4] + p[4..12] + p[12..20] + p[20..28] + p[FIXED_SIZE..];
    }
    if |r.missing| <= MAX_CHUNK_INDEXES && p == Encode(r) {
      FixedPart(r);
      IndexesRoundTrip(r.missing);
    }
  }

  /** Longer lists are encoded all the same, and refused by the other side. */
  lemma OversizeRefused(r: ContinueRequest)
    requires |r.missing| > MAX_CHUNK_INDEXES
    ensures Decode(Encode(r)) == None
  {
  }

  method Serialize(r: ContinueRequest) returns (payload: Bytes)
    ensures payload == Encode(r)
  {
    hide BigEndian.Encode;
    payload := BigEndian.Append([], MAGIC, 4);
    payload := BigEndian.Append(payload, r.sessionId, 8);
    payload := BigEndian.Append(payload, r.totalChunks, 8);
    payload := BigEndian.Append(payload, |r.missing|, 8);
    ghost var head := payload;
    for i := 0 to |r.missing|
      invariant payload == head + EncodeIndexes(r.missing[..i])
    {
      assert r.missing[..i + 1][..i] == r.missing[..i];
      payload := BigEndian.Append(payload, r.missing[i], 8);
    }
    assert r.missing[..|r.missing|] == r.missing;
  }

  method Deserialize(payload: Bytes) returns (request: Option<ContinueRequest>)
    ensures request == Decode(payload)
  {
    hide BigEndian.Decode;
    if |payload| < FIXED_SIZE {
      return None;
    }
    var magic, sessionId, totalChunks, count, offset;
    magic, offset := BigEndian.Read(payload, 0, 4);
    if magic != MAGIC {
      return None;
    }
    sessionId, offset := BigEndian.Read(payload, offset, 8);
    totalChunks, offset := BigEndian.Read(payload, offset, 8);
    count, offset := BigEndian.Read(payload, offset, 8);
    assert sessionId == BigEndian.Decode64(payload[4..12]) && totalChunks == BigEndian.Decode64(payload[12..20]);
    assert count == BigEndian.Decode64(payload[20..28]);
    if count > MAX_CHUNK_INDEXES || |payload| != FIXED_SIZE + 8 * count {
      return None;
    }
    var indexes := ReadIndexes(payload, offset, count);
    return Some(ContinueRequest(sessionId, totalChunks, indexes));
  }

  method ReadIndexes(payload: Bytes, start: nat, count: nat) returns (indexes: seq<u64>)
    requires |payload| == start + 8 * count
    ensures indexes == DecodeIndexes(payload[start..])
  {
    hide BigEndian.Decode, DecodeIndexes;
    indexes := [];
    var offset := start;
    DecodeNone(payload[start..offset]);
    for i := 0 to count
      invariant offset == start + 8 * i
      invariant indexes == DecodeIndexes(payload[start..offset])
    {
      DecodeOneMore(payload, start, offset);
      var index;
      index, offset := BigEndian.Read(payload, offset, 8);
      indexes := indexes + [index];
    }
    assert payload[start..offset] == payload[start..];
  }

  lemma DecodeNone(b: Bytes)
    requires b == []
    ensures DecodeIndexes(b) == []
  {
  }

  lemma DecodeOneMore(b: Bytes, start: nat, offset: nat)
    requires start <= offset && (offset - start) % 8 == 0 && offset + 8 <= |b|
    ensures DecodeIndexes(b[start..offset + 8]) ==
            DecodeIndexes(b[start..offset]) + [BigEndian.Decode(b[offset..offset + 8])]
  {
    hide BigEndian.Decode;
    var grown := b[start..offset + 8];
    assert grown[..|grown| - 8] == b[start..offset] && grown[|grown| - 8..] == b[offset..offset + 8];
  }

  // ---------------------------------------------------------------- validation

  /** What the sender accepts: its own session and count, and an increasing list of indexes in range. */
  predicate Valid(m: FileManifest, r: ContinueRequest) {
    r.sessionId == m.sessionId && r.totalChunks == m.chunkCount &&
    StrictlyIncreasing(r.missing) && forall i :: 0 <= i < |r.missing| ==> r.missing[i] < m.chunkCount
  }

  /** validate_continue_request compares neighbours only. */
  method Validate(m: FileManifest, r: ContinueRequest) returns (ok: bool)
    ensures ok <==> Valid(m, r)
  {
    if r.sessionId != m.sessionId || r.totalChunks != m.chunkCount {
      return false;
    }
    var previous: u64 := 0;
    var hasPrevious := false;
    for i := 0 to |r.missing|
      invariant hasPrevious <==> i > 0
      invariant i > 0 ==> previous == r.missing[i - 1]
      invariant forall j :: 0 <= j < i ==> r.missing[j] < m.chunkCount
      invariant forall j, k :: 0 <= j < k < i ==> r.missing[j] < r.missing[k]
    {
      var index := r.missing[i];
      if index >= m.chunkCount || (hasPrevious && index <= previous) {
        return false;
      }
      previous := index;
      hasPrevious := true;
    }
    return true;
  }

  /** An accepted list is no longer than the file has chunks, so "already present" never underflows. */
  lemma AlreadyPresentFits(m: FileManifest, r: ContinueRequest)
    requires Valid(m, r)
    ensures 0 <= m.chunkCount - |r.missing| <= m.chunkCount
  {
    IncreasingLength(r.missing, m.chunkCount);
  }

  // ---------------------------------------------------------------- the bytes on the wire

  lemma {:induction false} IndexAt(xs: seq<u64>, i: nat)
    requires i < |xs|
    ensures EncodeIndexes(xs)[8 * i..8 * i + 8] == BigEndian.Encode(xs[i], 8)
    decreases |xs|
  {
    hide BigEndian.Encode;
    var b, init := EncodeIndexes(xs), xs[..|xs| - 1];
    if i < |init| {
      IndexAt(init, i);
      assert b[8 * i..8 * i + 8] == EncodeIndexes(init)[8 * i..8 * i + 8];
    } else {
      assert b[8 * i..8 * i + 8] == BigEndian.Encode(xs[i], 8);
    }
  }

  /** Where each field of a request is, and each index. */
  lemma Layout(r: ContinueRequest)
    requires |r.missing| < TWO_64
    ensures var p := Encode(r);
            |p| == 28 + 8 * |r.missing| && p[0..4] == ToBytes("PBCR") && BigEndian.Number8(p, 4) == r.sessionId &&
            BigEndian.Number8(p, 12) == r.totalChunks && BigEndian.Number8(p, 20) == |r.missing| &&
            forall i :: 0 <= i < |r.missing| ==> BigEndian.Number8(p, 28 + 8 * i) == r.missing[i]
  {
    hide BigEndian.Encode, BigEndian.Number8, EncodeIndexes;
    var p := Encode(r);
    assert p[0..4] == BigEndian.Encode(MAGIC, 4);
    assert p[4..12] == BigEndian.Encode(r.sessionId, 8);
    assert p[12..20] == BigEndian.Encode(r.totalChunks, 8);
    assert p[20..28] == BigEndian.Encode(|r.missing|, 8);
    BigEndian.Spells(MAGIC, "PBCR");
    BigEndian.Field8(p, 4, r.sessionId);
    BigEndian.Field8(p, 12, r.totalChunks);
    BigEndian.Field8(p, 20, |r.missing|);
    forall i | 0 <= i < |r.missing|
      ensures BigEndian.Number8(p, 28 + 8 * i) == r.missing[i]
    {
      IndexAt(r.missing, i);
      assert p[28 + 8 * i..28 + 8 * i + 8] == EncodeIndexes(r.missing)[8 * i..8 * i + 8];
      BigEndian.Field8(p, 28 + 8 * i, r.missing[i]);
    }
  }

  /** Why a request is refused: another session, another count, an index out of range or out of order. */
  lemma RefusedExactly(m: FileManifest, r: ContinueRequest)
    ensures !Valid(m, r) <==>
            r.sessionId != m.sessionId || r.totalChunks != m.chunkCount ||
            (exists i :: 0 <= i < |r.missing| && r.missing[i] >= m.chunkCount) ||
            (exists i :: 0 < i < |r.missing| && r.missing[i] <= r.missing[i - 1])
  {
    if forall i :: 0 < i < |r.missing| ==> r.missing[i - 1] < r.missing[i] {
      NeighboursIncrease(r.missing);
    }
  }

  lemma {:induction false} NeighboursIncrease(xs: seq<u64>)
    requires forall i :: 0 < i < |xs| ==> xs[i - 1] < xs[i]
    ensures StrictlyIncreasing(xs)
  {
    if xs != [] {
      var init := xs[..|xs| - 1];
      assert forall i :: 0 < i < |init| ==> init[i - 1] < init[i];
      NeighboursIncrease(init);
      forall i, j | 0 <= i < j < |xs|
        ensures xs[i] < xs[j]
      {
        if j < |init| {
          assert init[i] < init[j];
        } else if i < j - 1 {
          assert init[i] < init[j - 1];
        }
      }
    }
  }
}
