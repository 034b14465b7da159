/** The streaming hash of src/crypto/sha256.cpp, proved to compute FIPS 180-4 on everything it was fed. */
module Sha256 {
  import opened Base
  import BigEndian
  import opened Sha256Constants
  import opened Sha256Spec

  // ---------------------------------------------------------------- facts about the specification

  lemma HashBlocksAppend(b: Bytes, block: Bytes)
    requires |b| % 64 == 0 && |block| == 64
    ensures HashBlocks(b + block) == Compress(HashBlocks(b), block)
  {
    assert (b + block)[..|b + block| - 64] == b;
    assert (b + block)[|b + block| - 64..] == block;
  }

  lemma EmptyMessage()
    ensures Whole([]) == Tail([]) == [] && HashBlocks([]) == INITIAL && BitCount([]) == 0
  {
  }

  /** Four bytes shifted into place and or-ed together. */
  function WordOf(b0: int, b1: int, b2: int, b3: int): int {
    b0 * 0x100_0000 + b1 * 0x1_0000 + b2 * 0x100 + b3
  }

  lemma WordOfBlock(b: Bytes, i: nat)
    requires i + 4 <= |b|
    ensures BigEndian.Decode(b[i..i + 4]) == WordOf(b[i], b[i + 1], b[i + 2], b[i + 3])
  {
    var w := b[i..i + 4];
    assert w[..3][..2] == w[..2] && w[..2][..1] == w[..1] && w[..1][..0] == [];
    assert BigEndian.Decode(w[..1]) == b[i];
    assert BigEndian.Decode(w[..2]) == BigEndian.Decode(w[..1]) * 256 + b[i + 1];
    assert BigEndian.Decode(w[..3]) == BigEndian.Decode(w[..2]) * 256 + b[i + 2];
  }

  /** The first sixteen words of the schedule are read from the block. */
  lemma ScheduleWord(block: Bytes, t: nat)
    requires |block| == 64 && t < 16
    ensures Schedule(block, t) == WordOf(block[4 * t], block[4 * t + 1], block[4 * t + 2], block[4 * t + 3])
  {
    hide SmallSigma0, SmallSigma1, BigEndian.Decode, WordOf;
    WordOfBlock(block, 4 * t);
  }

  /** The whole blocks and the tail of a message. */
  function Whole(message: Bytes): (b: Bytes)
    ensures |b| % 64 == 0 && |b| <= |message| < |b| + 64
  {
    message[..|message| - |message| % 64]
  }

  function Tail(message: Bytes): (b: Bytes)
    ensures |b| == |message| % 64
  {
    message[|message| - |message| % 64..]
  }

  lemma WholeAppend(message: Bytes, b: u8)
    ensures |message| % 64 < 63 ==>
              Whole(message + [b]) == Whole(message) && Tail(message + [b]) == Tail(message) + [b]
    ensures |message| % 64 == 63 ==>
              Whole(message + [b]) == Whole(message) + (Tail(message) + [b]) && Tail(message + [b]) == []
  {
    var m, w := message + [b], |message| - |message| % 64;
    NextInBlock(|message|);
    assert m[..w] == message[..w];
    assert m[w..] == message[w..] + [b];
    assert m[..|m|] == m[..w] + m[w..] && m[|m|..] == [];
  }

  lemma NextInBlock(n: nat)
    ensures (n + 1) % 64 == if n % 64 == 63 then 0 else n % 64 + 1
  {
  }

  /** Enough room for the length: one padded block ends the message. */
  lemma PadInOneBlock(m: Bytes, n: Bytes)
    requires |m| % 64 < 56 && n == BigEndian.Encode(BitCount(m), 8)
    ensures Whole(m) + (Tail(m) + [0x80] + Zeros(55 - |m| % 64) + n) == Pad(m)
  {
    assert m == Whole(m) + Tail(m);
    assert PadZeros(|m|) == 55 - |m| % 64;
  }

  /** Otherwise the zeros are divided between two blocks. */
  lemma PadInTwoBlocks(m: Bytes, n: Bytes)
    requires |m| % 64 >= 56 && n == BigEndian.Encode(BitCount(m), 8)
    ensures Whole(m) + (Tail(m) + [0x80] + Zeros(63 - |m| % 64)) + ([] + Zeros(56) + n) == Pad(m)
  {
    assert m == Whole(m) + Tail(m);
    assert PadZeros(|m|) == 63 - |m| % 64 + 56;
    assert Zeros(PadZeros(|m|)) == Zeros(63 - |m| % 64) + Zeros(56);
  }

  lemma BitCountGrows(m: Bytes, data: Bytes)
    ensures BitCount(m + data) == Wrap64(BitCount(m) + 8 * |data|)
  {
  }

  // ---------------------------------------------------------------- the class

  class Sha256 {
    /** The eight words of `state_`. */
    var state: Regs
    const buffer: array<u8>
    var bufferSize: nat
    var bitCount: u64
    /** Everything fed to Update so far. */
    ghost var message: Bytes

    /** The blocks of `done` have been compressed and `pending` waits in the buffer. */
    ghost predicate Holds(done: Bytes, pending: Bytes)
      reads this, buffer
    {
      buffer.Length == 64 &&
      |done| % 64 == 0 && bufferSize == |pending| <= 64 &&
      buffer[..bufferSize] == pending &&
      state == HashBlocks(done)
    }

    ghost predicate Valid()
      reads this, buffer
    {
      Holds(Whole(message), Tail(message)) &&
      bitCount == BitCount(message)
    }

    constructor ()
      ensures Initial() && fresh(buffer)
    {
      state := INITIAL;
      buffer := new u8[64](_ => 0);
      bufferSize, bitCount, message := 0, 0, [];
    }

    /** The default member values. */
    ghost predicate Initial()
      reads this
    {
      state == INITIAL && buffer.Length == 64 && bufferSize == 0 && bitCount == 0 && message == []
    }

    lemma InitialIsValid()
      requires Initial()
      ensures Valid() && message == []
    {
      hide HashBlocks, BitCount;
      EmptyMessage();
    }

    /** The first sixteen words of the schedule, read from the buffer. */
    method LoadWords() returns (words: array<u32>)
      requires buffer.Length == 64
      ensures fresh(words) && words.Length == 64
      ensures forall t :: 0 <= t < 16 ==> words[t] == Schedule(buffer[..], t)
    {
      hide Schedule, WordOf;
      words := new u32[64](_ => 0);
      ghost var block := buffer[..];
      for i := 0 to 16
        invariant buffer[..] == block
        invariant forall t :: 0 <= t < i ==> words[t] == Schedule(block, t)
      {
        var offset := i * 4;
        ScheduleWord(block, i);
        words[i] := WordOf(buffer[offset], buffer[offset + 1], buffer[offset + 2], buffer[offset + 3]);
      }
    }

    /** All sixty-four words. */
    method ExpandBlock() returns (words: array<u32>)
      requires buffer.Length == 64
      ensures fresh(words) && words.Length == 64
      ensures forall t :: 0 <= t < 64 ==> words[t] == Schedule(buffer[..], t)
    {
      hide SmallSigma0, SmallSigma1, BlockWord, Wrap32;
      words := LoadWords();
      ghost var block := buffer[..];
      for i := 16 to 64
        invariant buffer[..] == block
        invariant forall t :: 0 <= t < i ==> words[t] == Schedule(block, t)
      {
        words[i] := Wrap32(SmallSigma1(words[i - 2]) + words[i - 7] +
                           SmallSigma0(words[i - 15]) + words[i - 16]);
      }
    }

    method RunRounds() returns (r: Regs)
      requires buffer.Length == 64
      ensures r == Rounds(state, buffer[..], 64)
    {
      hide SmallSigma0, SmallSigma1, BigSigma0, BigSigma1, Choose, Majority, K, Wrap32, Schedule;
      var words := ExpandBlock();
      ghost var block, start := buffer[..], state;
      var a: u32, b: u32, c: u32, d: u32 := state.a, state.b, state.c, state.d;
      var e: u32, f: u32, g: u32, h: u32 := state.e, state.f, state.g, state.h;
      var i := 0;
      while i < 64
        invariant 0 <= i <= 64
        invariant Regs(a, b, c, d, e, f, g, h) == Rounds(start, block, i)
      {
        var temp1: int := Wrap32(h + BigSigma1(e) + Choose(e, f, g) + K(i) + words[i]);
        var temp2: int := Wrap32(BigSigma0(a) + Majority(a, b, c));
        h := g;
        g := f;
        f := e;
        e := Wrap32(d + temp1);
        d := c;
        c := b;
        b := a;
        a := Wrap32(temp1 + temp2);
        i := i + 1;
      }
      r := Regs(a, b, c, d, e, f, g, h);
    }

    method ProcessBlock()
      requires buffer.Length == 64
      modifies `state
      ensures state == Compress(old(state), buffer[..])
    {
      hide Rounds, Wrap32;
      var r := RunRounds();
      state := Regs(Wrap32(state.a + r.a), Wrap32(state.b + r.b), Wrap32(state.c + r.c), Wrap32(state.d + r.d),
                    Wrap32(state.e + r.e), Wrap32(state.f + r.f), Wrap32(state.g + r.g), Wrap32(state.h + r.h));
    }

    /** `buffer_[buffer_size_++] = b`. */
    method Push(b: u8, ghost done: Bytes, ghost pending: Bytes)
      requires Holds(done, pending) && |pending| < 64
      modifies buffer, `bufferSize
      ensures Holds(done, pending + [b])
    {
      hide HashBlocks;
      buffer[bufferSize] := b;
      bufferSize := bufferSize + 1;
      assert buffer[..bufferSize] == buffer[..bufferSize - 1] + [b];
    }

    /** Compress the full buffer and start it again. */
    method Flush(ghost done: Bytes, ghost pending: Bytes)
      requires Holds(done, pending) && |pending| == 64
      modifies `state, `bufferSize
      ensures Holds(done + pending, [])
    {
      hide Compress;
      assert buffer[..] == pending;
      HashBlocksAppend(done, pending);
      ProcessBlock();
      bufferSize := 0;
    }

    method Update(data: Bytes)
      requires Valid()
      modifies this, buffer
      ensures Valid() && message == old(message) + data
    {
      hide HashBlocks, BitCount;
      BitCountGrows(message, data);
      bitCount := Wrap64(bitCount + 8 * |data|);
      var i := 0;
      while i < |data|
        invariant 0 <= i <= |data|
        invariant message == old(message) + data[..i]
        invariant Holds(Whole(message), Tail(message))
        invariant bitCount == BitCount(old(message) + data)
      {
        WholeAppend(message, data[i]);
        ghost var done, pending := Whole(message), Tail(message);
        Push(data[i], done, pending);
        if bufferSize == buffer.Length {
          Flush(done, pending + [data[i]]);
        }
        message := message + [data[i]];
        i := i + 1;
        assert data[..i] == data[..i - 1] + [data[i - 1]];
      }
      assert data[..i] == data;
    }

    /** Push zero bytes until the buffer holds `limit` bytes. */
    method FillZeros(limit: nat, ghost done: Bytes, ghost pending: Bytes)
      requires Holds(done, pending) && |pending| <= limit <= 64
      modifies buffer, `bufferSize
      ensures Holds(done, pending + Zeros(limit - |pending|))
    {
      hide HashBlocks;
      ghost var n := 0;
      assert pending + Zeros(0) == pending;
      while bufferSize < limit
        invariant |pending| + n <= limit
        invariant Holds(done, pending + Zeros(n))
      {
        Push(0, done, pending + Zeros(n));
        assert pending + Zeros(n) + [0] == pending + Zeros(n + 1);
        n := n + 1;
      }
    }

    /** Push the eight bytes of the bit count, most significant first. */
    method PushLength(ghost done: Bytes, ghost pending: Bytes)
      requires Holds(done, pending) && |pending| == 56
      modifies buffer, `bufferSize
      ensures Holds(done, pending + BigEndian.Encode(bitCount, 8))
    {
      hide HashBlocks;
      var k := 8;
      assert pending + BigEndian.Encode(BigEndian.ShiftRight(bitCount, 8), 0) == pending;
      while k > 0
        invariant 0 <= k <= 8
        invariant Holds(done, pending + BigEndian.Encode(BigEndian.ShiftRight(bitCount, k), 8 - k))
      {
        ghost var before := BigEndian.Encode(BigEndian.ShiftRight(bitCount, k), 8 - k);
        var b := BigEndian.ShiftRight(bitCount, k - 1) % 256;
        Push(b, done, pending + before);
        assert pending + before + [b] ==
               pending + BigEndian.Encode(BigEndian.ShiftRight(bitCount, k - 1), 8 - (k - 1));
        k := k - 1;
      }
    }

    /** The last block: zeros up to byte 56, the bit count, one more compression. */
    method Finish(ghost done: Bytes, ghost pending: Bytes)
      requires Holds(done, pending) && |pending| <= 56
      modifies `state, buffer, `bufferSize
      ensures Holds(done + (pending + Zeros(56 - |pending|) + BigEndian.Encode(bitCount, 8)), [])
    {
      hide HashBlocks;
      FillZeros(56, done, pending);
      PushLength(done, pending + Zeros(56 - |pending|));
      Flush(done, pending + Zeros(56 - |pending|) + BigEndian.Encode(bitCount, 8));
    }

    method FinalHex() returns (hex: string)
      requires Valid()
      modifies `state, buffer, `bufferSize
      ensures hex == Sha256Hex(message)
    {
      hide HashBlocks, DigestHex, Pad, Zeros, BitCount;
      ghost var done, pending := Whole(message), Tail(message) + [0x80];
      Push(0x80, done, Tail(message));
      if bufferSize > 56 {
        FillZeros(64, done, pending);
        Flush(done, pending + Zeros(64 - |pending|));
        Finish(done + (pending + Zeros(64 - |pending|)), []);
        PadInTwoBlocks(message, BigEndian.Encode(bitCount, 8));
      } else {
        Finish(done, pending);
        PadInOneBlock(message, BigEndian.Encode(bitCount, 8));
      }
      hex := DigestHex(state);
    }
  }

  function Flatten(pieces: seq<Bytes>): Bytes {
    if pieces == [] then [] else Flatten(pieces[..|pieces| - 1]) + pieces[|pieces| - 1]
  }

  /** However a message is cut into updates, the digest is that of the whole message. */
  method HashPieces(pieces: seq<Bytes>) returns (hex: string)
    ensures hex == Sha256Hex(Flatten(pieces))
  {
    hide Sha256Hex, HashBlocks, BitCount;
    var sha256 := new Sha256();
    sha256.InitialIsValid();
    for i := 0 to |pieces|
      invariant sha256.Valid() && fresh(sha256) && fresh(sha256.buffer)
      invariant sha256.message == Flatten(pieces[..i])
    {
      assert pieces[..i + 1][..i] == pieces[..i];
      sha256.Update(pieces[i]);
    }
    assert pieces[..|pieces|] == pieces;
    hex := sha256.FinalHex();
  }

  // ---------------------------------------------------------------- files

  /** A binary input stream over a file: a read may come up short at the end, or fail outright. */
  class InputStream {
    const content: Bytes
    var position: nat
    var eof: bool
    var bad: bool

    ghost predicate Valid()
      reads this
    {
      position <= |content| && (eof ==> position == |content|)
    }

    constructor (content: Bytes)
      ensures Valid() && position == 0 && !eof && !bad && this.content == content
    {
      this.content := content;
      position, eof, bad := 0, false, false;
    }

    /** Opening the file again, which may fail. */
    method Reopen()
      requires Valid()
      modifies this
      ensures Valid() && (!bad ==> position == 0 && !eof)
    {
      position, eof, bad := 0, false, *;
    }

    /** istream::seekg; a place past the end is like the end. */
    method Seek(offset: nat)
      requires Valid() && !bad
      modifies this
      ensures Valid() && (!bad ==> position == Min(offset, |content|) && !eof)
    {
      position, eof, bad := Min(offset, |content|), false, *;
    }

    /** istream::read followed by gcount. */
    method Read(size: nat) returns (data: Bytes)
      requires Valid() && !eof && !bad && size > 0
      modifies this
      ensures Valid() && old(position) <= position && data == content[old(position)..position]
      ensures if bad then data == [] else position == Min(old(position) + size, |content|)
      ensures !eof && !bad ==> old(position) < position
    {
      if * {
        bad := true;
        return [];
      }
      var next := Min(position + size, |content|);
      data := content[position..next];
      eof := next < position + size;
      position := next;
    }
  }

  /** sha256_file after the file has been opened; None is the thrown read error. */
  method Sha256File(file: InputStream) returns (hex: Option<string>)
    requires file.Valid() && file.position == 0 && !file.eof && !file.bad
    modifies file
    ensures file.Valid() && (hex.None? <==> file.bad)
    ensures hex.Some? ==> hex.value == Sha256Hex(file.content)
  {
    hide Sha256Hex, HashBlocks, BitCount;
    var sha256 := new Sha256();
    sha256.InitialIsValid();
    while !file.eof && !file.bad
      invariant file.Valid() && sha256.Valid() && fresh(sha256) && fresh(sha256.buffer)
      invariant sha256.message == file.content[..file.position]
      decreases |file.content| - file.position, !file.eof && !file.bad
    {
      var read := file.Read(64 * 1024);
      if |read| > 0 {
        sha256.Update(read);
      }
      assert file.content[..file.position] == sha256.message;
    }
    if file.bad {
      return None;
    }
    assert file.content[..file.position] == file.content;
    var text := sha256.FinalHex();
    hex := Some(text);
  }

  // ---------------------------------------------------------------- digests as text

  predicate IsHexDigit(ch: char) {
    '0' <= ch <= '9' || 'a' <= ch <= 'f'
  }

  predicate IsSha256Hex(value: string) {
    |value| == 64 && forall i :: 0 <= i < 64 ==> IsHexDigit(value[i])
  }

  method CheckSha256Hex(value: string) returns (ok: bool)
    ensures ok <==> IsSha256Hex(value)
  {
    if |value| != 64 {
      return false;
    }
    for i := 0 to |value|
      invariant forall j :: 0 <= j < i ==> IsHexDigit(value[j])
    {
      if !IsHexDigit(value[i]) {
        return false;
      }
    }
    return true;
  }

  lemma {:induction false} HexDigits(n: nat, width: nat)
    ensures forall i :: 0 <= i < width ==> IsHexDigit(Hex(n, width)[i])
  {
    if width > 0 {
      HexDigits(n / 16, width - 1);
    }
  }

  /** Every digest the hash produces is one the hash packet accepts. */
  lemma DigestIsSha256Hex(message: Bytes)
    ensures IsSha256Hex(Sha256Hex(message))
  {
    hide Digest;
    var r := Digest(message);
    HexDigits(r.a, 8);
    HexDigits(r.b, 8);
    HexDigits(r.c, 8);
    HexDigits(r.d, 8);
    HexDigits(r.e, 8);
    HexDigits(r.f, 8);
    HexDigits(r.g, 8);
    HexDigits(r.h, 8);
  }

  function Pow16(n: nat): (p: nat)
    ensures p > 0
  {
    if n == 0 then 1 else 16 * Pow16(n - 1)
  }

  lemma {:induction false} HexInjective(n: nat, m: nat, width: nat)
    requires n < Pow16(width) && m < Pow16(width) && Hex(n, width) == Hex(m, width)
    ensures n == m
  {
    if width > 0 {
      var s := Hex(n, width);
      assert s[..width - 1] == Hex(n / 16, width - 1) == Hex(m / 16, width - 1);
      assert s[width - 1] == HexChar(n % 16) == HexChar(m % 16);
      HexInjective(n / 16, m / 16, width - 1);
    }
  }

  lemma WordHexInjective(n: u32, m: u32)
    requires Hex(n, 8) == Hex(m, 8)
    ensures n == m
  {
    assert Pow16(4) == 0x1_0000 && Pow16(8) == 0x1_0000_0000;
    HexInjective(n, m, 8);
  }

  /** Comparing digests as text compares all eight words. */
  lemma SameParts(a: string, b: string, a': string, b': string)
    requires a + b == a' + b' && |b| == |b'|
    ensures a == a' && b == b'
  {
    assert a == (a + b)[..|a|] && b == (a + b)[|a|..];
    assert a' == (a' + b')[..|a'|] && b' == (a' + b')[|a'|..];
  }

  lemma DigestHexInjective(r: Regs, q: Regs)
    requires DigestHex(r) == DigestHex(q)
    ensures r == q
  {
    hide Hex;
    var r2, q2 := Hex(r.a, 8) + Hex(r.b, 8), Hex(q.a, 8) + Hex(q.b, 8);
    var r3, q3 := r2 + Hex(r.c, 8), q2 + Hex(q.c, 8);
    var r4, q4 := r3 + Hex(r.d, 8), q3 + Hex(q.d, 8);
    var r5, q5 := r4 + Hex(r.e, 8), q4 + Hex(q.e, 8);
    var r6, q6 := r5 + Hex(r.f, 8), q5 + Hex(q.f, 8);
    var r7, q7 := r6 + Hex(r.g, 8), q6 + Hex(q.g, 8);
    SameParts(r7, Hex(r.h, 8), q7, Hex(q.h, 8));
    SameParts(r6, Hex(r.g, 8), q6, Hex(q.g, 8));
    SameParts(r5, Hex(r.f, 8), q5, Hex(q.f, 8));
    SameParts(r4, Hex(r.e, 8), q4, Hex(q.e, 8));
    SameParts(r3, Hex(r.d, 8), q3, Hex(q.d, 8));
    SameParts(r2, Hex(r.c, 8), q2, Hex(q.c, 8));
    SameParts(Hex(r.a, 8), Hex(r.b, 8), Hex(q.a, 8), Hex(q.b, 8));
    WordHexInjective(r.a, q.a);
    WordHexInjective(r.b, q.b);
    WordHexInjective(r.c, q.c);
    WordHexInjective(r.d, q.d);
    WordHexInjective(r.e, q.e);
    WordHexInjective(r.f, q.f);
    WordHexInjective(r.g, q.g);
    WordHexInjective(r.h, q.h);
  }

  /** Hexadecimal text is text of single bytes. */
  lemma HexIsByteString(value: string)
    requires IsSha256Hex(value)
    ensures forall i :: 0 <= i < |value| ==> value[i] as int < 256
  {
  }

  // ---------------------------------------------------------------- the range of the standard

  /** Below 2^61 bytes the length field is the true bit length, as the standard requires. */
  lemma LengthFieldExact(m: Bytes)
    requires |m| < 0x2000_0000_0000_0000
    ensures BigEndian.Decode(Pad(m)[|Pad(m)| - 8..]) == 8 * |m|
  {
    hide BigEndian.Encode, BigEndian.Decode, Wrap64, PadZeros;
    var front, field := m + [0x80] + Zeros(PadZeros(|m|)), BigEndian.Encode(BitCount(m), 8);
    assert Pad(m) == front + field;
    assert Pad(m)[|front|..] == field;
    BigEndian.RoundTrip64(BitCount(m));
    WrapSmall(8 * |m|);
  }

  /** So padding loses nothing: two such messages with the same padding are the same message. */
  lemma PadInjective(m: Bytes, m': Bytes)
    requires |m| < 0x2000_0000_0000_0000 && |m'| < 0x2000_0000_0000_0000
    requires Pad(m) == Pad(m')
    ensures m == m'
  {
    LengthFieldExact(m);
    LengthFieldExact(m');
    assert Pad(m)[..|m|] == m && Pad(m')[..|m'|] == m';
  }

  /** A digest text has 64 characters, each a digit or a lowercase letter up to f. */
  lemma DigestTextExactly(value: string)
    ensures IsSha256Hex(value) <==> |value| == 64 && forall i :: 0 <= i < 64 ==> value[i] in "0123456789abcdef"
  {
    forall ch: char
      ensures IsHexDigit(ch) <==> ch in "0123456789abcdef"
    {
      HexAlphabet(ch);
    }
  }

  lemma HexAlphabet(ch: char)
    ensures IsHexDigit(ch) <==> ch in "0123456789abcdef"
  {
    var s := "0123456789abcdef";
    assert s[0] == '0' && s[1] == '1' && s[2] == '2' && s[3] == '3' && s[4] == '4' && s[5] == '5' && s[6] == '6';
    assert s[7] == '7' && s[8] == '8' && s[9] == '9' && s[10] == 'a' && s[11] == 'b' && s[12] == 'c' && s[13] == 'd';
    assert s[14] == 'e' && s[15] == 'f';
    if '0' <= ch <= '9' {
      assert s[ch as int - '0' as int] == ch;
    } else if 'a' <= ch <= 'f' {
      assert s[10 + ch as int - 'a' as int] == ch;
    }
  }
}
