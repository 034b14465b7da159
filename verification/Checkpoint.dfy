/** The checkpoint file: its text, its relation to a manifest and the missing chunks (src/transfer/checkpoint.cpp). */
module Checkpoint {
  import opened Base
  import opened Protocol
  import opened Indexes
  import opened Text
  import ContinuationCodec

  datatype Checkpoint = Checkpoint(
    filename: string,
    fileSize: u64,
    chunkSize: u32,
    totalChunks: u64,
    completed: set<u64>)

  const EMPTY := Checkpoint("", 0, 0, 0, {})

  const HEADER: string := "PACKETBRIDGE_CHECKPOINT_V1"
  const FILENAME: string := "filename="
  const FILE_SIZE: string := "file_size="
  const CHUNK_SIZE: string := "chunk_size="
  const CHUNK_COUNT: string := "chunk_count="
  const COMPLETED: string := "completed="

  // ---------------------------------------------------------------- the text

  /** Decimal numbers separated by commas. */
  function Join(xs: seq<u64>): string {
    if xs == [] then ""
    else if |xs| == 1 then Decimal(xs[0])
    else Decimal(xs[0]) + "," + Join(xs[1..])
  }

  /** The completed indexes, in the order of std::set. */
  function CompletedList(c: Checkpoint): seq<u64> {
    Ascending(c.completed, TWO_64)
  }

  /** The text of a checkpoint file with the given list of completed chunks. */
  function TextWith(c: Checkpoint, list: string): string {
    HEADER + "\n" + (FILENAME + c.filename + "\n" + (FILE_SIZE + Decimal(c.fileSize) + "\n" +
    (CHUNK_SIZE + Decimal(c.chunkSize) + "\n" + (CHUNK_COUNT + Decimal(c.totalChunks) + "\n" +
    (COMPLETED + list + "\n" + "")))))
  }

  function Render(c: Checkpoint): string {
    TextWith(c, Join(CompletedList(c)))
  }

  // ---------------------------------------------------------------- reading it back

  function ValueAfterEquals(line: string): string {
    if Find(line, '=') == |line| then "" else line[Find(line, '=') + 1..]
  }

  /** One part between commas; None is the thrown exception. */
  function AddPart(chunks: set<u64>, part: string): Option<set<u64>> {
    if part == "" then Some(chunks)
    else
      match ParseU64(part)
      case None => None
      case Some(index) => Some(chunks + {index})
  }

  /** parse_completed_chunks on the parts between commas. */
  function ParseParts(parts: seq<string>): Option<set<u64>> {
    if parts == [] then Some({})
    else
      match ParseParts(parts[..|parts| - 1])
      case None => None
      case Some(chunks) => AddPart(chunks, parts[|parts| - 1])
  }

  /** One line of the file; an unknown line is skipped. */
  function LoadLine(c: Checkpoint, line: string): Option<Checkpoint> {
    var value := ValueAfterEquals(line);
    if FILENAME <= line then Some(c.(filename := value))
    else if FILE_SIZE <= line then
      match ParseU64(value) case None => None case Some(n) => Some(c.(fileSize := n))
    else if CHUNK_SIZE <= line then
      match ParseU64(value) case None => None case Some(n) => Some(c.(chunkSize := Wrap32(n)))
    else if CHUNK_COUNT <= line then
      match ParseU64(value) case None => None case Some(n) => Some(c.(totalChunks := n))
    else if COMPLETED <= line then
      match ParseParts(Split(value, ',')) case None => None case Some(s) => Some(c.(completed := s))
    else Some(c)
  }

  function LoadLines(c: Checkpoint, lines: seq<string>): Option<Checkpoint>
    decreases |lines|
  {
    if lines == [] then Some(c)
    else
      match LoadLine(c, lines[0])
      case None => None
      case Some(c') => LoadLines(c', lines[1..])
  }

  /** load_checkpoint on the text of an existing file. */
  function Load(text: string): Option<Checkpoint> {
    var lines := Split(text, '\n');
    if lines == [] || lines[0] != HEADER then None else LoadLines(EMPTY, lines[1..])
  }

  // ---------------------------------------------------------------- the round trip

  lemma ValueOf(key: string, value: string)
    requires '=' !in key
    ensures ValueAfterEquals(key + "=" + value) == value
  {
    FindInPrefix(key, '=', value);
    assert (key + "=" + value)[|key| + 1..] == value;
  }

  lemma DecimalHasOnlyDigits(n: nat, c: char)
    requires !IsDigit(c)
    ensures c !in Decimal(n)
  {
  }

  lemma {:induction false} JoinHasNoNewline(xs: seq<u64>)
    ensures '\n' !in Join(xs)
  {
    if xs != [] {
      DecimalHasOnlyDigits(xs[0], '\n');
      JoinHasNoNewline(xs[1..]);
    }
  }

  function Decimals(xs: seq<u64>): (ds: seq<string>)
    ensures |ds| == |xs| && forall i :: 0 <= i < |xs| ==> ds[i] == Decimal(xs[i])
  {
    seq(|xs|, i requires 0 <= i < |xs| => Decimal(xs[i]))
  }

  lemma SplitNothing(s: string, d: char)
    requires s == ""
    ensures Split(s, d) == []
  {
  }

  lemma {:induction false} SplitJoin(xs: seq<u64>)
    ensures Split(Join(xs), ',') == Decimals(xs)
  {
    hide Decimal, Find, Split;
    if xs == [] {
      SplitNothing(Join(xs), ',');
    } else {
      var d := Decimal(xs[0]);
      DecimalHasOnlyDigits(xs[0], ',');
      if |xs| == 1 {
        SplitLast(d, ',');
        assert Decimals(xs) == [d];
      } else {
        SplitFirst(d, ',', Join(xs[1..]));
        SplitJoin(xs[1..]);
        assert Decimals(xs) == [d] + Decimals(xs[1..]);
      }
    }
  }

  lemma {:induction false} ParseDecimals(xs: seq<u64>)
    ensures ParseParts(Decimals(xs)) == Some(Members(xs))
  {
    hide Decimal, ParseU64;
    if xs == [] {
      assert Members(xs) == {};
    } else {
      var prefix, last := xs[..|xs| - 1], xs[|xs| - 1];
      ParseDecimals(prefix);
      assert Decimals(xs)[..|xs| - 1] == Decimals(prefix);
      ParseDecimal(last);
      assert xs == prefix + [last];
      assert Members(xs) == Members(prefix) + {last};
    }
  }

  lemma CompletedRoundTrip(c: Checkpoint)
    ensures ParseParts(Split(Join(CompletedList(c)), ',')) == Some(c.completed)
  {
    var xs := CompletedList(c);
    AscendingIsSorted(c.completed, TWO_64);
    SplitJoin(xs);
    ParseDecimals(xs);
    assert Members(xs) == c.completed;
  }

  lemma LoadFilename(c: Checkpoint, value: string)
    ensures LoadLine(c, FILENAME + value) == Some(c.(filename := value))
  {
    assert FILENAME + value == "filename" + "=" + value;
    ValueOf("filename", value);
  }

  lemma LoadFileSize(c: Checkpoint, n: u64)
    ensures LoadLine(c, FILE_SIZE + Decimal(n)) == Some(c.(fileSize := n))
  {
    hide Decimal, ParseU64, Find;
    var line := FILE_SIZE + Decimal(n);
    assert line == "file_size" + "=" + Decimal(n) && line[4] != FILENAME[4];
    ValueOf("file_size", Decimal(n));
    ParseDecimal(n);
  }

  lemma LoadChunkSize(c: Checkpoint, n: u32)
    ensures LoadLine(c, CHUNK_SIZE + Decimal(n)) == Some(c.(chunkSize := n))
  {
    hide Decimal, ParseU64, Find, Wrap32;
    Wrap32Small(n);
    var line := CHUNK_SIZE + Decimal(n);
    assert line == "chunk_size" + "=" + Decimal(n) && line[0] != FILENAME[0] && line[0] != FILE_SIZE[0];
    ValueOf("chunk_size", Decimal(n));
    ParseDecimal(n);
  }

  lemma LoadChunkCount(c: Checkpoint, n: u64)
    ensures LoadLine(c, CHUNK_COUNT + Decimal(n)) == Some(c.(totalChunks := n))
  {
    hide Decimal, ParseU64, Find;
    var line := CHUNK_COUNT + Decimal(n);
    assert line == "chunk_count" + "=" + Decimal(n) && line[0] != FILENAME[0] && line[0] != FILE_SIZE[0];
    assert line[6] != CHUNK_SIZE[6];
    ValueOf("chunk_count", Decimal(n));
    ParseDecimal(n);
  }

  lemma CompletedLine(c: Checkpoint, value: string)
    ensures LoadLine(c, COMPLETED + value) ==
            match ParseParts(Split(value, ',')) { case None => None case Some(done) => Some(c.(completed := done)) }
  {
    hide ParseU64, Find, ParseParts, Split;
    var line := COMPLETED + value;
    assert line == "completed" + "=" + value && line[0] != FILENAME[0] && line[0] != FILE_SIZE[0];
    assert line[1] != CHUNK_SIZE[1] && line[1] != CHUNK_COUNT[1];
    ValueOf("completed", value);
  }

  /** The lines after the header. */
  function Body(c: Checkpoint, list: string): (b: seq<string>)
    ensures |b| == 5
  {
    [FILENAME + c.filename, FILE_SIZE + Decimal(c.fileSize), CHUNK_SIZE + Decimal(c.chunkSize),
     CHUNK_COUNT + Decimal(c.totalChunks), COMPLETED + list]
  }

  lemma LoadStep(c: Checkpoint, lines: seq<string>, c': Checkpoint)
    requires lines != [] && LoadLine(c, lines[0]) == Some(c')
    ensures LoadLines(c, lines) == LoadLines(c', lines[1..])
  {
  }

  /** The first four lines, whatever was loaded before. */
  lemma LoadFour(before: Checkpoint, c: Checkpoint, list: string)
    ensures LoadLines(before, Body(c, list)[..4]) == Some(c.(completed := before.completed))
  {
    hide LoadLine, Decimal, LoadLines;
    var b := Body(c, list)[..4];
    var c1 := before.(filename := c.filename);
    LoadFilename(before, c.filename);
    LoadStep(before, b, c1);
    assert b[1..] == Body(c, list)[1..4];
    LoadThree(c1, c, list);
  }

  lemma LoadThree(c1: Checkpoint, c: Checkpoint, list: string)
    ensures LoadLines(c1, Body(c, list)[1..4]) ==
            Some(c.(filename := c1.filename, completed := c1.completed))
  {
    hide LoadLine, Decimal, LoadLines;
    var b := Body(c, list)[1..4];
    var c2 := c1.(fileSize := c.fileSize);
    var c3 := c2.(chunkSize := c.chunkSize);
    LoadFileSize(c1, c.fileSize);
    LoadStep(c1, b, c2);
    LoadChunkSize(c2, c.chunkSize);
    LoadStep(c2, b[1..], c3);
    LoadChunkCount(c3, c.totalChunks);
    assert b[1..][1..] == [CHUNK_COUNT + Decimal(c.totalChunks)];
    LoadOne(c3, CHUNK_COUNT + Decimal(c.totalChunks));
  }

  lemma LoadBody(c: Checkpoint, list: string)
    ensures LoadLines(EMPTY, Body(c, list)) ==
            match ParseParts(Split(list, ',')) { case None => None case Some(done) => Some(c.(completed := done)) }
  {
    hide LoadLine, Decimal, LoadLines, Split, ParseParts;
    var b, c4 := Body(c, list), c.(completed := {});
    LoadFour(EMPTY, c, list);
    assert b == b[..4] + [COMPLETED + list];
    LoadLinesConcat(EMPTY, b[..4], [COMPLETED + list]);
    CompletedLine(c4, list);
    LoadOne(c4, COMPLETED + list);
  }

  lemma {:induction false} LoadLinesConcat(c: Checkpoint, a: seq<string>, b: seq<string>)
    ensures LoadLines(c, a + b) ==
            match LoadLines(c, a) { case None => None case Some(c') => LoadLines(c', b) }
    decreases |a|
  {
    hide LoadLine;
    if a == [] {
      assert a + b == b;
    } else {
      assert (a + b)[1..] == a[1..] + b;
      if LoadLine(c, a[0]).Some? {
        LoadLinesConcat(LoadLine(c, a[0]).value, a[1..], b);
      }
    }
  }

  lemma LoadOne(c: Checkpoint, line: string)
    ensures LoadLines(c, [line]) == LoadLine(c, line)
  {
    hide LoadLine;
  }

  lemma SplitText(c: Checkpoint, list: string)
    requires '\n' !in c.filename && '\n' !in list
    ensures Split(TextWith(c, list), '\n') == [HEADER] + Body(c, list)
  {
    hide Split, Decimal;
    DecimalHasOnlyDigits(c.fileSize, '\n');
    DecimalHasOnlyDigits(c.chunkSize, '\n');
    DecimalHasOnlyDigits(c.totalChunks, '\n');
    var t5 := COMPLETED + list + "\n" + "";
    var t4 := CHUNK_COUNT + Decimal(c.totalChunks) + "\n" + t5;
    var t3 := CHUNK_SIZE + Decimal(c.chunkSize) + "\n" + t4;
    var t2 := FILE_SIZE + Decimal(c.fileSize) + "\n" + t3;
    var t1 := FILENAME + c.filename + "\n" + t2;
    SplitFirst(HEADER, '\n', t1);
    SplitFirst(FILENAME + c.filename, '\n', t2);
    SplitFirst(FILE_SIZE + Decimal(c.fileSize), '\n', t3);
    SplitFirst(CHUNK_SIZE + Decimal(c.chunkSize), '\n', t4);
    SplitFirst(CHUNK_COUNT + Decimal(c.totalChunks), '\n', t5);
    SplitFirst(COMPLETED + list, '\n', "");
    SplitNothing("", '\n');
  }

  /** A text with any list loads as the checkpoint with the chunks of that list. */
  lemma LoadText(c: Checkpoint, list: string)
    requires '\n' !in c.filename && '\n' !in list
    ensures Load(TextWith(c, list)) ==
            match ParseParts(Split(list, ',')) { case None => None case Some(done) => Some(c.(completed := done)) }
  {
    hide LoadLines, Split, TextWith, Body, ParseParts;
    SplitText(c, list);
    LoadBody(c, list);
    var lines := Split(TextWith(c, list), '\n');
    assert lines[1..] == Body(c, list);
  }

  /** A loaded name never contains a newline. */
  lemma {:induction false} LoadedNameHasNoNewline(c: Checkpoint, lines: seq<string>)
    requires '\n' !in c.filename && forall i :: 0 <= i < |lines| ==> '\n' !in lines[i]
    ensures LoadLines(c, lines).Some? ==> '\n' !in LoadLines(c, lines).value.filename
    decreases |lines|
  {
    hide ParseU64, ParseParts;
    if lines != [] && LoadLine(c, lines[0]).Some? {
      LoadedNameHasNoNewline(LoadLine(c, lines[0]).value, lines[1..]);
    }
  }

  lemma LoadHasNoNewline(text: string)
    ensures Load(text).Some? ==> '\n' !in Load(text).value.filename
  {
    hide LoadLines, Split;
    SplitHasNoDelimiter(text, '\n');
    var lines := Split(text, '\n');
    if lines != [] {
      LoadedNameHasNoNewline(EMPTY, lines[1..]);
    }
  }

  /**
   * Loading what was saved gives the same checkpoint back, whatever the sizes and
   * the completed set, exactly when the name contains no newline.
   */
  lemma RoundTrip(c: Checkpoint)
    ensures Load(Render(c)) == Some(c) <==> '\n' !in c.filename
  {
    hide LoadLines, Split, TextWith, ParseParts, Join, CompletedList;
    if '\n' !in c.filename {
      JoinHasNoNewline(CompletedList(c));
      CompletedRoundTrip(c);
      LoadText(c, Join(CompletedList(c)));
    }
    LoadHasNoNewline(Render(c));
  }

  // ---------------------------------------------------------------- a manifest's checkpoint

  predicate Matches(c: Checkpoint, m: FileManifest) {
    c.filename == m.filename && c.fileSize == m.fileSize && c.chunkSize == m.chunkSize &&
    c.totalChunks == m.chunkCount && forall i :: i in c.completed ==> i < m.chunkCount
  }

  function Create(m: FileManifest): Checkpoint {
    Checkpoint(m.filename, m.fileSize, m.chunkSize, m.chunkCount, {})
  }

  function Missing(c: Checkpoint): seq<u64> {
    Ascending(Below(c.totalChunks) - c.completed, c.totalChunks)
  }

  function Request(m: FileManifest, c: Checkpoint): ContinueRequest {
    ContinueRequest(m.sessionId, m.chunkCount, Missing(c))
  }

  /** What the receiver asks for is increasing, is the complement of what it has, and passes the sender's validation. */
  lemma RequestIsValid(m: FileManifest, c: Checkpoint)
    requires Matches(c, m)
    ensures forall i: u64 :: i in Missing(c) <==> i < m.chunkCount && i !in c.completed
    ensures ContinuationCodec.Valid(m, Request(m, c))
  {
    AscendingIsSorted(Below(c.totalChunks) - c.completed, c.totalChunks);
    var xs := Missing(c);
    assert forall i :: 0 <= i < |xs| ==> xs[i] in xs;
  }

  // ---------------------------------------------------------------- the program

  lemma {:induction false} JoinAppend(xs: seq<u64>, x: u64)
    ensures Join(xs + [x]) == if xs == [] then Decimal(x) else Join(xs) + "," + Decimal(x)
  {
    hide Decimal;
    if xs != [] {
      assert (xs + [x])[1..] == xs[1..] + [x];
      JoinAppend(xs[1..], x);
    }
  }

  /** The list after `completed=`, written one index at a time with a comma before all but the first. */
  method WriteCompleted(completed: set<u64>) returns (text: string)
    ensures text == Join(Ascending(completed, TWO_64))
  {
    hide Join, Decimal, Ascending;
    text := "";
    var first := true;
    var indexes := Ascending(completed, TWO_64);
    JoinNothing(indexes[..0]);
    for i := 0 to |indexes|
      invariant first <==> i == 0
      invariant text == Join(indexes[..i])
    {
      assert indexes[..i + 1] == indexes[..i] + [indexes[i]];
      JoinAppend(indexes[..i], indexes[i]);
      if !first {
        text := text + ",";
      } else {
        JoinNothing(indexes[..i]);
      }
      text := text + Decimal(indexes[i]);
      first := false;
    }
    assert indexes[..|indexes|] == indexes;
  }

  lemma JoinNothing(xs: seq<u64>)
    requires xs == []
    ensures Join(xs) == ""
  {
  }

  /** The text that save_checkpoint streams into the temporary file. */
  method WriteText(c: Checkpoint) returns (text: string)
    ensures text == Render(c)
  {
    hide Join, Decimal, Ascending;
    var completed := WriteCompleted(c.completed);
    var l0, l1 := HEADER + "\n", FILENAME + c.filename + "\n";
    var l2, l3 := FILE_SIZE + Decimal(c.fileSize) + "\n", CHUNK_SIZE + Decimal(c.chunkSize) + "\n";
    var l4, l5 := CHUNK_COUNT + Decimal(c.totalChunks) + "\n", COMPLETED + completed + "\n";
    text := l0 + l1 + l2 + l3 + l4 + l5;
    Regroup(l0, l1, l2, l3, l4, l5);
  }

  lemma Regroup(a: string, b: string, c: string, d: string, e: string, f: string)
    ensures a + b + c + d + e + f == a + (b + (c + (d + (e + (f + "")))))
  {
  }

  lemma ParsePartsAppend(p: seq<string>, part: string)
    ensures ParseParts(p + [part]) ==
            match ParseParts(p) { case None => None case Some(chunks) => AddPart(chunks, part) }
  {
    hide AddPart;
    assert (p + [part])[..|p|] == p;
  }

  lemma {:induction false} FailedPartsStayFailed(p: seq<string>, q: seq<string>)
    requires ParseParts(p) == None
    ensures ParseParts(p + q) == None
    decreases |q|
  {
    hide AddPart;
    if q == [] {
      assert p + q == p;
    } else {
      FailedPartsStayFailed(p, q[..|q| - 1]);
      assert (p + q)[..|p + q| - 1] == p + q[..|q| - 1];
    }
  }

  method ParseCompletedChunks(value: string) returns (chunks: Option<set<u64>>)
    ensures chunks == ParseParts(Split(value, ','))
  {
    hide ParseU64, Find, Split, ParseParts, Line;
    var found: set<u64>, rest := {}, value;
    ghost var seen: seq<string> := [];
    NoParts(seen);
    while rest != []
      invariant seen + Split(rest, ',') == Split(value, ',')
      invariant ParseParts(seen) == Some(found)
      decreases |rest|
    {
      SplitStep(rest, ',');
      var part := Line(rest, ',');
      rest := AfterLine(rest, ',');
      ParsePartsAppend(seen, part);
      seen := seen + [part];
      assert seen + Split(rest, ',') == Split(value, ',');
      if part != "" {
        var index := ParseU64(part);
        if index.None? {
          FailedPartsStayFailed(seen, Split(rest, ','));
          return None;
        }
        found := found + {index.value};
      }
    }
    SplitNothing(rest, ',');
    assert seen + [] == seen;
    return Some(found);
  }

  lemma NoParts(parts: seq<string>)
    requires parts == []
    ensures ParseParts(parts) == Some({})
  {
  }

  method ReadLine(c: Checkpoint, line: string) returns (r: Option<Checkpoint>)
    ensures r == LoadLine(c, line)
  {
    hide ParseU64, ParseParts, Find, Split;
    var value := ValueAfterEquals(line);
    if FILENAME <= line {
      return Some(c.(filename := value));
    } else if FILE_SIZE <= line {
      var n := ParseU64(value);
      return if n.None? then None else Some(c.(fileSize := n.value));
    } else if CHUNK_SIZE <= line {
      var n := ParseU64(value);
      return if n.None? then None else Some(c.(chunkSize := Wrap32(n.value)));
    } else if CHUNK_COUNT <= line {
      var n := ParseU64(value);
      return if n.None? then None else Some(c.(totalChunks := n.value));
    } else if COMPLETED <= line {
      var chunks := ParseCompletedChunks(value);
      return if chunks.None? then None else Some(c.(completed := chunks.value));
    }
    return Some(c);
  }

  /** load_checkpoint once the file is open. */
  method ReadText(text: string) returns (r: Option<Checkpoint>)
    ensures r == Load(text)
  {
    hide LoadLine, Find;
    if text == [] {
      return None;
    }
    var line, rest := Line(text, '\n'), AfterLine(text, '\n');
    assert Split(text, '\n')[1..] == Split(rest, '\n');
    if line != HEADER {
      return None;
    }
    var loaded := EMPTY;
    while rest != []
      invariant Load(text) == LoadLines(loaded, Split(rest, '\n'))
      decreases |rest|
    {
      line := Line(rest, '\n');
      assert Split(rest, '\n')[1..] == Split(AfterLine(rest, '\n'), '\n');
      rest := AfterLine(rest, '\n');
      var step := ReadLine(loaded, line);
      if step.None? {
        return None;
      }
      loaded := step.value;
    }
    return Some(loaded);
  }

  method MatchesManifest(c: Checkpoint, m: FileManifest) returns (ok: bool)
    ensures ok <==> Matches(c, m)
  {
    if c.filename != m.filename || c.fileSize != m.fileSize || c.chunkSize != m.chunkSize ||
       c.totalChunks != m.chunkCount {
      return false;
    }
    var rest := c.completed;
    while rest != {}
      invariant rest <= c.completed
      invariant forall i :: i in c.completed ==> i in rest || i < m.chunkCount
      decreases rest
    {
      var index :| index in rest;
      if index >= m.chunkCount {
        return false;
      }
      rest := rest - {index};
    }
    return true;
  }

  method MissingChunks(c: Checkpoint) returns (missing: seq<u64>)
    ensures missing == Missing(c)
  {
    missing := [];
    ghost var absent := Below(c.totalChunks) - c.completed;
    for index := 0 to c.totalChunks
      invariant missing == Ascending(absent, index)
    {
      assert index in absent <==> index !in c.completed;
      if index !in c.completed {
        missing := missing + [index];
      }
    }
  }

  // ---------------------------------------------------------------- the text, written out

  /** The text of a checkpoint file. */
  lemma RendersText(c: Checkpoint)
    ensures Render(c) ==
            "PACKETBRIDGE_CHECKPOINT_V1\n" + ("filename=" + c.filename + "\n") +
            ("file_size=" + Decimal(c.fileSize) + "\n") + ("chunk_size=" + Decimal(c.chunkSize) + "\n") +
            ("chunk_count=" + Decimal(c.totalChunks) + "\n") + ("completed=" + Join(CompletedList(c)) + "\n")
  {
    hide Join, Decimal, CompletedList;
    var l0, l1 := HEADER + "\n", FILENAME + c.filename + "\n";
    var l2, l3 := FILE_SIZE + Decimal(c.fileSize) + "\n", CHUNK_SIZE + Decimal(c.chunkSize) + "\n";
    var l4, l5 := CHUNK_COUNT + Decimal(c.totalChunks) + "\n", COMPLETED + Join(CompletedList(c)) + "\n";
    Regroup(l0, l1, l2, l3, l4, l5);
    assert l0 == "PACKETBRIDGE_CHECKPOINT_V1\n";
  }

  /** The list is that of the completed chunks in ascending order, with commas between. */
  lemma ListsChunks(c: Checkpoint)
    ensures StrictlyIncreasing(CompletedList(c)) && forall i: u64 :: i in CompletedList(c) <==> i in c.completed
  {
    AscendingIsSorted(c.completed, TWO_64);
  }

  /** What each kind of line does to the checkpoint that is being loaded. */
  lemma LineMeanings(c: Checkpoint, v: string)
    ensures LoadLine(c, "filename=" + v) == Some(c.(filename := v))
    ensures var r := LoadLine(c, "file_size=" + v);
            if ParseU64(v).None? then r == None else r == Some(c.(fileSize := ParseU64(v).value))
    ensures var r := LoadLine(c, "chunk_size=" + v);
            if ParseU64(v).None? then r == None else r == Some(c.(chunkSize := ParseU64(v).value % 0x1_0000_0000))
    ensures var r := LoadLine(c, "chunk_count=" + v);
            if ParseU64(v).None? then r == None else r == Some(c.(totalChunks := ParseU64(v).value))
  {
    hide ParseU64, Find, ParseParts, Split, ValueAfterEquals;
    assert "filename=" + v == "filename" + "=" + v && "file_size=" + v == "file_size" + "=" + v;
    assert "chunk_size=" + v == "chunk_size" + "=" + v && "chunk_count=" + v == "chunk_count" + "=" + v;
    ValueOf("filename", v);
    ValueOf("file_size", v);
    ValueOf("chunk_size", v);
    ValueOf("chunk_count", v);
    assert ("file_size=" + v)[4] == '_' && ("chunk_size=" + v)[0] == 'c' && ("chunk_count=" + v)[0] == 'c';
    assert ("chunk_count=" + v)[6] == 'c';
  }

  /** A line without any of the keys is skipped. */
  lemma OtherLinesSkipped(c: Checkpoint, line: string)
    requires !("filename=" <= line) && !("file_size=" <= line) && !("chunk_size=" <= line) &&
             !("chunk_count=" <= line) && !("completed=" <= line)
    ensures LoadLine(c, line) == Some(c)
  {
  }

  /** The parts between commas: empty ones are skipped, and one that is not a number fails them all. */
  lemma {:induction false} PartsMeaning(parts: seq<string>)
    ensures ParseParts(parts).Some? <==>
            forall i :: 0 <= i < |parts| && parts[i] != "" ==> ParseU64(parts[i]).Some?
    ensures ParseParts(parts).Some? ==>
              forall x :: x in ParseParts(parts).value <==>
                exists i :: 0 <= i < |parts| && parts[i] != "" && ParseU64(parts[i]) == Some(x)
  {
    hide ParseU64;
    if parts != [] {
      var init, last := parts[..|parts| - 1], parts[|parts| - 1];
      PartsMeaning(init);
      assert forall i :: 0 <= i < |init| ==> init[i] == parts[i];
    }
  }

  /** Without the header line nothing is loaded. */
  lemma HeaderRequired(text: string)
    ensures Load(text).Some? ==> Split(text, '\n') != [] && Split(text, '\n')[0] == "PACKETBRIDGE_CHECKPOINT_V1"
  {
    hide Split, LoadLines;
  }

  /** The lines take effect one after the other. */
  lemma LinesInOrder(c: Checkpoint, line: string, rest: seq<string>)
    ensures LoadLines(c, [line] + rest) ==
            match LoadLine(c, line) { case None => None case Some(c') => LoadLines(c', rest) }
  {
    hide LoadLine;
    assert ([line] + rest)[1..] == rest;
  }

  /** A new checkpoint has the four fields of the manifest and nothing completed. */
  lemma NewIsEmpty(m: FileManifest)
    ensures Create(m) == Checkpoint(m.filename, m.fileSize, m.chunkSize, m.chunkCount, {})
  {
  }

  /** The checkpoint of the repository's test, as text. */
  lemma RendersExample(c: Checkpoint)
    requires c == Checkpoint("payload.bin", 4096, 1024, 4, {0, 2})
    ensures Render(c) ==
            "PACKETBRIDGE_CHECKPOINT_V1\n" + "filename=payload.bin\n" + "file_size=4096\n" + "chunk_size=1024\n" +
            "chunk_count=4\n" + "completed=0,2\n"
  {
    hide Render, CompletedList, Join, Decimal;
    RendersText(c);
    ExampleNumbers();
    ExampleList(c);
    assert "filename=" + "payload.bin" + "\n" == "filename=payload.bin\n";
    assert "file_size=" + "4096" + "\n" == "file_size=4096\n" && "chunk_size=" + "1024" + "\n" == "chunk_size=1024\n";
    assert "chunk_count=" + "4" + "\n" == "chunk_count=4\n" && "completed=" + "0,2" + "\n" == "completed=0,2\n";
  }

  lemma ExampleNumbers()
    ensures Decimal(4096) == "4096" && Decimal(1024) == "1024" && Decimal(4) == "4"
  {
  }

  lemma ExampleList(c: Checkpoint)
    requires c.completed == {0, 2}
    ensures Join(CompletedList(c)) == "0,2"
  {
    hide Ascending;
    assert Members([0, 2]) == c.completed;
    AscendingUnique([0, 2], TWO_64);
    assert Join([2]) == "2" && [0, 2][1..] == [2];
  }

  // ---------------------------------------------------------------- names with a newline

  /** The text before and after the name. */
  lemma NameInText(c: Checkpoint, list: string)
    ensures TextWith(c, list) ==
            HEADER + ['\n'] + ((FILENAME + c.filename) + ['\n'] + TextAfterName(c, list))
  {
    hide Decimal;
  }

  function TextAfterName(c: Checkpoint, list: string): string {
    FILE_SIZE + Decimal(c.fileSize) + "\n" + (CHUNK_SIZE + Decimal(c.chunkSize) + "\n" +
    (CHUNK_COUNT + Decimal(c.totalChunks) + "\n" + (COMPLETED + list + "\n" + "")))
  }

  lemma SplitAfterName(c: Checkpoint, list: string)
    requires '\n' !in list
    ensures Split(TextAfterName(c, list), '\n') == Body(c, list)[1..]
  {
    hide Split, Decimal;
    DecimalHasOnlyDigits(c.fileSize, '\n');
    DecimalHasOnlyDigits(c.chunkSize, '\n');
    DecimalHasOnlyDigits(c.totalChunks, '\n');
    var t5 := COMPLETED + list + "\n" + "";
    var t4 := CHUNK_COUNT + Decimal(c.totalChunks) + "\n" + t5;
    var t3 := CHUNK_SIZE + Decimal(c.chunkSize) + "\n" + t4;
    SplitFirst(FILE_SIZE + Decimal(c.fileSize), '\n', t3);
    SplitFirst(CHUNK_SIZE + Decimal(c.chunkSize), '\n', t4);
    SplitFirst(CHUNK_COUNT + Decimal(c.totalChunks), '\n', t5);
    SplitFirst(COMPLETED + list, '\n', "");
    SplitNothing("", '\n');
  }

  /** The lines that a name with newlines makes. */
  function NameLines(name: string): seq<string> {
    Split(FILENAME + name + ['\n'], '\n')
  }

  /**
   * With newlines in the name, only the name can come out different: the lines after it
   * set all other fields again.
   */
  lemma NewlineLoads(c: Checkpoint)
    ensures var before := LoadLines(EMPTY, NameLines(c.filename));
            Load(Render(c)) == if before.None? then None else Some(c.(filename := before.value.filename))
  {
    hide LoadLines, LoadLine, Split, TextWith, Join, CompletedList, Decimal, ParseParts, TextAfterName, Body;
    var list := Join(CompletedList(c));
    var name, tail := NameLines(c.filename), Body(c, list)[1..];
    NameInText(c, list);
    SplitFirst(HEADER, '\n', (FILENAME + c.filename) + ['\n'] + TextAfterName(c, list));
    SplitConcat(FILENAME + c.filename, '\n', TextAfterName(c, list));
    JoinHasNoNewline(CompletedList(c));
    SplitAfterName(c, list);
    var lines := Split(Render(c), '\n');
    assert lines == [HEADER] + (name + tail) && lines[1..] == name + tail;
    LoadLinesConcat(EMPTY, name, tail);
    var before := LoadLines(EMPTY, name);
    if before.Some? {
      LoadTail(before.value, c);
    }
  }

  lemma LoadTail(before: Checkpoint, c: Checkpoint)
    ensures LoadLines(before, Body(c, Join(CompletedList(c)))[1..]) == Some(c.(filename := before.filename))
  {
    hide LoadLines, LoadLine, Split, Join, CompletedList, ParseParts;
    var list := Join(CompletedList(c));
    var b, c4 := Body(c, list), c.(filename := before.filename, completed := before.completed);
    LoadThree(before, c, list);
    assert b[1..] == b[1..4] + [COMPLETED + list];
    LoadLinesConcat(before, b[1..4], [COMPLETED + list]);
    CompletedLine(c4, list);
    CompletedRoundTrip(c);
    LoadOne(c4, COMPLETED + list);
  }

  /** A name of two lines comes out as its first line. */
  lemma NewlineExample(c: Checkpoint)
    requires c.filename == "a\nb"
    ensures Load(Render(c)) == Some(c.(filename := "a"))
  {
    hide Render, Load, LoadLine, LoadLines, Split;
    NewlineLoads(c);
    var text := FILENAME + c.filename + ['\n'];
    assert text == "filename=a" + ['\n'] + ("b" + ['\n'] + []);
    SplitFirst("filename=a", '\n', "b" + ['\n'] + []);
    SplitFirst("b", '\n', []);
    SplitNothing([], '\n');
    assert NameLines(c.filename) == ["filename=a"] + (["b"] + []);
    LinesInOrder(EMPTY, "filename=a", ["b"] + []);
    assert "filename=a" == FILENAME + "a";
    LoadFilename(EMPTY, "a");
    var c1 := EMPTY.(filename := "a");
    LinesInOrder(c1, "b", []);
    OtherLinesSkipped(c1, "b");
    NoLinesLoad(c1);
  }

  lemma NoLinesLoad(c: Checkpoint)
    ensures LoadLines(c, []) == Some(c)
  {
  }

  /** The name that comes out has characters of the name, or of the key before it. */
  lemma {:induction false} LoadedNameCharacters(c: Checkpoint, lines: seq<string>, ch: char)
    requires LoadLines(c, lines).Some? && ch in LoadLines(c, lines).value.filename
    ensures ch in c.filename || exists i :: 0 <= i < |lines| && ch in lines[i]
    decreases |lines|
  {
    hide ParseU64, ParseParts, Split, Find;
    if lines != [] {
      var c' := LoadLine(c, lines[0]).value;
      LoadedNameCharacters(c', lines[1..], ch);
      if exists i :: 0 <= i < |lines[1..]| && ch in lines[1..][i] {
        var i :| 0 <= i < |lines[1..]| && ch in lines[1..][i];
        assert lines[i + 1] == lines[1..][i];
      } else {
        assert ch in c.filename || ch in lines[0];
      }
    }
  }
}
