/**
 * Checkpoint files that were not written whole. The program does not notice a write
 * error of the text that it saves, and renames what there is. Such a text may load, with
 * a last number that lost its last digits.
 */
module CheckpointCut {
  import opened Base
  import opened Indexes
  import opened Text
  import opened Checkpoint

  // ---------------------------------------------------------------- lines of a cut text

  /** The lines `cut` are the first `j` of `lines`, and perhaps a part of the next one. */
  predicate CutLines(cut: seq<string>, lines: seq<string>, j: nat) {
    j <= |lines| &&
    (cut == lines[..j] || (j < |lines| && |cut| == j + 1 && cut[..j] == lines[..j] && cut[j] <= lines[j]))
  }

  lemma NoLines(lines: seq<string>)
    ensures CutLines([], lines, 0)
  {
  }

  lemma CutLinesMore(line: string, cut: seq<string>, lines: seq<string>, j: nat)
    requires CutLines(cut, lines, j)
    ensures CutLines([line] + cut, [line] + lines, j + 1)
  {
    var more := [line] + lines;
    assert more[..j + 1] == [line] + lines[..j];
    assert cut == lines[..j] ==> [line] + cut == more[..j + 1];
    assert |cut| == j + 1 ==> ([line] + cut)[..j + 1] == [line] + cut[..j];
  }

  /** A text that is cut off has the first lines of the whole one, and perhaps a part of the next. */
  lemma {:induction false} SplitCut(p: string, text: string, d: char) returns (j: nat)
    requires p <= text
    ensures CutLines(Split(p, d), Split(text, d), j)
    decreases |text|
  {
    hide Split, Find;
    if p == [] {
      SplitNothing(p, d);
      NoLines(Split(text, d));
      return 0;
    }
    var n := Find(text, d);
    SplitStep(text, d);
    if |p| <= n {
      assert p == text[..n][..|p|];
      SplitLast(p, d);
      assert Split(text, d)[..0] == [] && Split(p, d)[..0] == [] && p <= Line(text, d);
      return 0;
    }
    var head, rest, rest' := text[..n], text[n + 1..], p[n + 1..];
    assert text == head + [d] + rest && p == head + [d] + rest';
    SplitFirst(head, d, rest);
    SplitFirst(head, d, rest');
    j := SplitCut(rest', rest, d);
    CutLinesMore(head, Split(rest', d), Split(rest, d), j);
    j := j + 1;
  }

  // ---------------------------------------------------------------- numbers

  /** The number `v` is `n` without some of its last digits. */
  predicate HeadOf(v: nat, n: nat) {
    v == n || (n >= 10 && HeadOf(v, n / 10))
  }

  /** A decimal text that lost its last characters is the text of such a number. */
  lemma {:induction false} DecimalCut(u: string, n: nat)
    requires u <= Decimal(n) && u != []
    ensures AllDigits(u) && Value(u) <= n && HeadOf(Value(u), n)
    decreases n
  {
    hide Value;
    if u == Decimal(n) {
      ValueOfDecimal(n);
    } else if n >= 10 {
      assert u <= Decimal(n / 10);
      DecimalCut(u, n / 10);
    }
  }

  lemma ParseDigits(u: string)
    requires AllDigits(u) && u != [] && Value(u) < TWO_64
    ensures ParseU64(u) == Some(Value(u))
  {
    hide Value;
    assert IsDigit(u[0]) && SkipSpace(u) == u;
    DigitPrefixAll(u);
  }

  /** The first `i` of a list, and perhaps a number that lost its last digits. */
  predicate CutSet(done: set<u64>, xs: seq<u64>, i: nat) {
    i <= |xs| &&
    (done == Members(xs[..i]) ||
     (i < |xs| && exists v: u64 :: v <= xs[i] && HeadOf(v, xs[i]) && done == Members(xs[..i]) + {v}))
  }

  /** A list that is cut off anywhere. */
  lemma CutListReads(w: string, xs: seq<u64>) returns (i: nat)
    requires w <= Join(xs)
    ensures ParseParts(Split(w, ',')).Some? && CutSet(ParseParts(Split(w, ',')).value, xs, i)
  {
    hide Join, Split, Decimal, ParseU64, ParseParts, Value, HeadOf;
    SplitJoin(xs);
    i := SplitCut(w, Join(xs), ',');
    var parts := Split(w, ',');
    assert Decimals(xs)[..i] == Decimals(xs[..i]);
    ParseDecimals(xs[..i]);
    if parts != Decimals(xs)[..i] {
      var u := parts[i];
      assert parts == Decimals(xs[..i]) + [u];
      ParsePartsAppend(Decimals(xs[..i]), u);
      if u != [] {
        DecimalCut(u, xs[i]);
        ParseDigits(u);
        assert HeadOf(Value(u), xs[i]);
      }
    }
  }

  // ---------------------------------------------------------------- the whole file

  /** A line that is not about completed chunks leaves them alone. */
  lemma OtherLine(c: Checkpoint, line: string)
    requires !(COMPLETED <= line)
    ensures LoadLine(c, line).Some? ==> LoadLine(c, line).value.completed == c.completed
  {
    hide ParseU64, ParseParts, Split, Find;
  }

  lemma {:induction false} OtherLines(c: Checkpoint, lines: seq<string>)
    requires forall i :: 0 <= i < |lines| ==> !(COMPLETED <= lines[i])
    ensures LoadLines(c, lines).Some? ==> LoadLines(c, lines).value.completed == c.completed
    decreases |lines|
  {
    hide LoadLine;
    if lines != [] && LoadLine(c, lines[0]).Some? {
      OtherLine(c, lines[0]);
      OtherLines(LoadLine(c, lines[0]).value, lines[1..]);
    }
  }

  /** Of the lines of a checkpoint only the last is about completed chunks. */
  lemma OnlyLastLine(c: Checkpoint, list: string, i: nat, line: string)
    requires i < 4 && line <= Body(c, list)[i]
    ensures !(COMPLETED <= line)
  {
    hide Decimal;
    assert Body(c, list)[i][1] == 'i' || Body(c, list)[i][1] == 'h';
  }

  /** The last line, cut off anywhere. */
  lemma CutLastLine(c: Checkpoint, line: string, xs: seq<u64>) returns (i: nat)
    requires c.completed == {} && line <= COMPLETED + Join(xs)
    ensures LoadLine(c, line).Some? ==> CutSet(LoadLine(c, line).value.completed, xs, i)
  {
    hide Join, Split, ParseParts, LoadLine;
    assert Members(xs[..0]) == {};
    if !(COMPLETED <= line) {
      OtherLine(c, line);
      return 0;
    }
    var w := line[|COMPLETED|..];
    assert w <= Join(xs) && line == COMPLETED + w;
    CompletedLine(c, w);
    i := CutListReads(w, xs);
  }

  /** A checkpoint text that is cut off anywhere loads with a cut list of chunks, if it loads. */
  lemma CutLoads(c: Checkpoint, text: string) returns (i: nat)
    requires '\n' !in c.filename && text <= Render(c)
    ensures Load(text).Some? ==> CutSet(Load(text).value.completed, CompletedList(c), i)
  {
    hide TextWith, Split, LoadLines, Body, LoadLine, Join, CompletedList;
    var xs := CompletedList(c);
    assert Members(xs[..0]) == {};
    JoinHasNoNewline(xs);
    SplitText(c, Join(xs));
    var lines, cut := [HEADER] + Body(c, Join(xs)), Split(text, '\n');
    var j := SplitCut(text, Render(c), '\n');
    EachLineCut(cut, lines, j);
    if cut == [] || cut[0] != HEADER {
      return 0;
    }
    i := CutBodyLoads(c, xs, cut[1..]);
  }

  lemma EachLineCut(cut: seq<string>, lines: seq<string>, j: nat)
    requires CutLines(cut, lines, j)
    ensures |cut| <= |lines| && forall i :: 0 <= i < |cut| ==> cut[i] <= lines[i]
  {
    assert forall i :: 0 <= i < j ==> cut[..j][i] == lines[..j][i];
  }

  lemma CutBodyLoads(c: Checkpoint, xs: seq<u64>, cut: seq<string>) returns (i: nat)
    requires |cut| <= 5 && forall k :: 0 <= k < |cut| ==> cut[k] <= Body(c, Join(xs))[k]
    ensures LoadLines(EMPTY, cut).Some? ==> CutSet(LoadLines(EMPTY, cut).value.completed, xs, i)
  {
    hide LoadLines, LoadLine, Body, Join;
    assert Members(xs[..0]) == {};
    var four := if |cut| <= 4 then cut else cut[..4];
    forall k | 0 <= k < |four|
      ensures !(COMPLETED <= four[k])
    {
      OnlyLastLine(c, Join(xs), k, four[k]);
    }
    OtherLines(EMPTY, four);
    if |cut| <= 4 {
      return 0;
    }
    assert cut == four + [cut[4]];
    LoadLinesConcat(EMPTY, four, [cut[4]]);
    if LoadLines(EMPTY, four).None? {
      return 0;
    }
    var c' := LoadLines(EMPTY, four).value;
    LastOfBody(c, Join(xs));
    i := CutLastLine(c', cut[4], xs);
    LoadOne(c', cut[4]);
  }

  lemma LastOfBody(c: Checkpoint, list: string)
    ensures Body(c, list)[4] == COMPLETED + list
  {
  }

  /** If a cut text claims any chunk, its other fields are those of the whole text. */
  lemma CutKeepsFields(c: Checkpoint, text: string)
    requires '\n' !in c.filename && text <= Render(c)
    ensures Load(text).Some? && Load(text).value.completed != {} ==>
              Load(text).value == c.(completed := Load(text).value.completed)
  {
    hide TextWith, Split, LoadLines, LoadLine, Join, CompletedList, Body;
    var list := Join(CompletedList(c));
    JoinHasNoNewline(CompletedList(c));
    SplitText(c, list);
    var lines, cut := [HEADER] + Body(c, list), Split(text, '\n');
    var j := SplitCut(text, Render(c), '\n');
    EachLineCut(cut, lines, j);
    if cut != [] && cut[0] == HEADER {
      if |cut| < 6 {
        FewLines(c, list, cut[1..]);
      } else {
        assert j >= 5 && cut[1..5] == lines[1..5] == Body(c, list)[..4];
        assert cut[1..] == Body(c, list)[..4] + [cut[5]];
        FourLinesLoad(c, list, cut[5]);
      }
    }
  }

  lemma FewLines(c: Checkpoint, list: string, cut: seq<string>)
    requires |cut| <= 4 && forall k :: 0 <= k < |cut| ==> cut[k] <= Body(c, list)[k]
    ensures LoadLines(EMPTY, cut).Some? ==> LoadLines(EMPTY, cut).value.completed == {}
  {
    hide LoadLines, Body;
    forall k | 0 <= k < |cut|
      ensures !(COMPLETED <= cut[k])
    {
      OnlyLastLine(c, list, k, cut[k]);
    }
    OtherLines(EMPTY, cut);
  }

  lemma FourLinesLoad(c: Checkpoint, list: string, last: string)
    requires last <= Body(c, list)[4]
    ensures var r := LoadLines(EMPTY, Body(c, list)[..4] + [last]);
            r.Some? ==> r.value == c.(completed := r.value.completed)
  {
    hide LoadLines, LoadLine, Body, Split, ParseParts;
    LoadFour(EMPTY, c, list);
    var c4 := c.(completed := {});
    LoadLinesConcat(EMPTY, Body(c, list)[..4], [last]);
    LoadOne(c4, last);
    LastOfBody(c, list);
    if COMPLETED <= last {
      var w := last[|COMPLETED|..];
      assert last == COMPLETED + w;
      CompletedLine(c4, w);
    } else {
      OtherLastLine(c4, last, list);
    }
  }

  lemma OtherLastLine(c: Checkpoint, line: string, list: string)
    requires line <= COMPLETED + list && !(COMPLETED <= line)
    ensures LoadLine(c, line) == Some(c)
  {
    hide ParseU64, ParseParts, Split, Find;
    assert |line| > 0 ==> line[0] == 'c';
    assert |line| > 1 ==> line[1] == 'o';
  }

  // ---------------------------------------------------------------- initial segments

  lemma SegmentList(c: Checkpoint, k: nat)
    requires k <= TWO_64 && c.completed == Below(k)
    ensures CompletedList(c) == Range(0, k)
  {
    assert Members(Range(0, k)) == Below(k);
    AscendingUnique(Range(0, k), TWO_64);
  }

  /** The text of the first `k` chunks, cut off anywhere, loads as some first `j` chunks, if at all. */
  lemma CutSegmentLoads(c: Checkpoint, k: nat, text: string) returns (j: nat)
    requires k <= TWO_64 && c.completed == Below(k) && '\n' !in c.filename && text <= Render(c)
    ensures j <= k && (Load(text).Some? ==> Load(text).value.completed == Below(j))
  {
    hide Render, Load, CompletedList, HeadOf;
    SegmentList(c, k);
    var i := CutLoads(c, text);
    if Load(text).None? {
      return 0;
    }
    var done := Load(text).value.completed;
    assert Range(0, k)[..i] == Range(0, i);
    RangeMembers(0, i);
    j := if i < k && i in done then i + 1 else i;
    assert forall x: u64 :: x in done <==> x < j;
  }

  // ---------------------------------------------------------------- exactly which sets are safe

  /** With every number, the set contains what is left of it without its last digits. */
  predicate Closed(done: set<u64>) {
    forall x :: x in done && x >= 10 ==> x / 10 in done
  }

  lemma {:induction false} HeadInClosed(v: u64, n: u64, done: set<u64>)
    requires HeadOf(v, n) && n in done && Closed(done)
    ensures v in done
    decreases n
  {
    if v != n {
      HeadInClosed(v, n / 10, done);
    }
  }

  lemma {:induction false} HeadOfTenth(v: nat, n: nat)
    requires HeadOf(v, n) && v >= 10
    ensures HeadOf(v / 10, n)
    decreases n
  {
    if v == n {
      assert HeadOf(v / 10, n / 10);
    } else {
      HeadOfTenth(v, n / 10);
    }
  }

  /** The first elements of a closed set, with what is left of the next one, are a closed set again. */
  lemma CutSetClosed(done: set<u64>, all: set<u64>, xs: seq<u64>, i: nat)
    requires Closed(all) && StrictlyIncreasing(xs) && Members(xs) == all && CutSet(done, xs, i)
    ensures done <= all && Closed(done)
  {
    hide HeadOf;
    var first := Members(xs[..i]);
    assert first <= all;
    assert forall x :: x in all && i < |xs| && x < xs[i] ==> x in first by {
      forall x | x in all && i < |xs| && x < xs[i]
        ensures x in first
      {
        EarlierElement(xs, i, x);
      }
    }
    assert Closed(first) by {
      forall x | x in first && x >= 10
        ensures x / 10 in first
      {
        TenthIsEarlier(xs, i, x, all);
      }
    }
    if done != first {
      var v: u64 :| v <= xs[i] && HeadOf(v, xs[i]) && done == first + {v};
      assert xs[i] in Members(xs);
      HeadInClosed(v, xs[i], all);
      if v >= 10 {
        HeadOfTenth(v, xs[i]);
        HeadInClosed(v / 10, xs[i], all);
      }
    }
  }

  lemma EarlierElement(xs: seq<u64>, i: nat, x: u64)
    requires StrictlyIncreasing(xs) && i < |xs| && x in xs && x < xs[i]
    ensures x in xs[..i]
  {
    var k :| 0 <= k < |xs| && xs[k] == x;
    assert k < i;
    assert xs[..i][k] == x;
  }

  lemma TenthIsEarlier(xs: seq<u64>, i: nat, x: u64, all: set<u64>)
    requires StrictlyIncreasing(xs) && Members(xs) == all && Closed(all) && i <= |xs| && x in xs[..i] && x >= 10
    ensures x / 10 in xs[..i]
  {
    var k :| 0 <= k < i && xs[..i][k] == x;
    assert xs[k] == x && x in all && x / 10 in xs;
    EarlierElement(xs, k, x / 10);
    var j :| 0 <= j < k && xs[..k][j] == x / 10;
    assert xs[..i][j] == x / 10;
  }

  lemma ListOf(c: Checkpoint)
    ensures StrictlyIncreasing(CompletedList(c)) && Members(CompletedList(c)) == c.completed
  {
    AscendingIsSorted(c.completed, TWO_64);
  }

  /** The text of a closed set, cut off anywhere, loads as a closed set of chunks that the whole one has too. */
  lemma CutClosedLoads(c: Checkpoint, text: string)
    requires Closed(c.completed) && '\n' !in c.filename && text <= Render(c)
    ensures Load(text).Some? ==> Load(text).value.completed <= c.completed && Closed(Load(text).value.completed)
  {
    hide Render, Load, CompletedList, Closed, CutSet;
    var i := CutLoads(c, text);
    ListOf(c);
    if Load(text).Some? {
      CutSetClosed(Load(text).value.completed, c.completed, CompletedList(c), i);
    }
  }

  lemma {:induction false} SplitTrailing(s: string, d: char)
    requires s != [] && s[|s| - 1] != d
    ensures Split(s + [d], d) == Split(s, d)
    decreases |s|
  {
    hide Split, Find;
    var n := Find(s, d);
    if n == |s| {
      assert s[..n] == s;
      SplitLast(s, d);
      assert s + [d] == s + [d] + [];
      SplitFirst(s, d, []);
      SplitNothing([], d);
    } else {
      var head, rest := s[..n], s[n + 1..];
      assert s == head + [d] + rest && s + [d] == head + [d] + (rest + [d]);
      SplitFirst(head, d, rest);
      SplitFirst(head, d, rest + [d]);
      SplitTrailing(rest, d);
    }
  }

  /** A text without its last newline loads as the text with it. */
  lemma WithoutNewline(c: Checkpoint, list: string) returns (text: string)
    requires '\n' !in list
    ensures TextWith(c, list) == text + ['\n'] && Load(text) == Load(TextWith(c, list))
  {
    hide Split, LoadLines, Decimal;
    var all := TextWith(c, list);
    text := all[..|all| - 1];
    LastCharacters(c, list);
    assert all == text + ['\n'];
    SplitTrailing(text, '\n');
  }

  /** The text up to the list. */
  function Front(c: Checkpoint): string {
    HEADER + "\n" + (FILENAME + c.filename + "\n" + (FILE_SIZE + Decimal(c.fileSize) + "\n" +
    (CHUNK_SIZE + Decimal(c.chunkSize) + "\n" + (CHUNK_COUNT + Decimal(c.totalChunks) + "\n" + COMPLETED))))
  }

  lemma TextParts(c: Checkpoint, list: string)
    ensures TextWith(c, list) == Front(c) + list + ['\n']
  {
    hide Decimal;
    var a, b := HEADER + "\n", FILENAME + c.filename + "\n";
    var d, e := FILE_SIZE + Decimal(c.fileSize) + "\n", CHUNK_SIZE + Decimal(c.chunkSize) + "\n";
    Flatten(a, b, d, e, CHUNK_COUNT + Decimal(c.totalChunks) + "\n", list);
  }

  lemma Flatten(a: string, b: string, d: string, e: string, f: string, x: string)
    ensures a + (b + (d + (e + (f + (COMPLETED + x + "\n" + ""))))) ==
            a + (b + (d + (e + (f + COMPLETED)))) + x + ['\n']
  {
  }

  lemma LastCharacters(c: Checkpoint, list: string)
    requires '\n' !in list
    ensures var all := TextWith(c, list); |all| >= 2 && all[|all| - 1] == '\n' && all[|all| - 2] != '\n'
  {
    hide Decimal, TextWith;
    TextParts(c, list);
    FrontEnds(c);
    var front := Front(c);
    if list == [] {
      assert TextWith(c, list)[|front| - 1] == '=';
    } else {
      assert TextWith(c, list)[|front| + |list| - 1] == list[|list| - 1];
    }
  }

  lemma FrontEnds(c: Checkpoint)
    ensures Front(c) != [] && Front(c)[|Front(c)| - 1] == '='
  {
    hide Decimal;
  }

  /** Some number of the list, without its last digit: the list up to there is a part of the whole list. */
  lemma CutAfterTenth(xs: seq<u64>, i: nat) returns (list: string)
    requires i < |xs| && xs[i] >= 10
    ensures list <= Join(xs) && list == Join(xs[..i] + [xs[i] / 10])
  {
    hide Decimal;
    list := Join(xs[..i] + [xs[i] / 10]);
    JoinAppend(xs[..i], xs[i] / 10);
    JoinAppend(xs[..i], xs[i]);
    DecimalTenth(xs[i]);
    assert xs[..i] + [xs[i]] == xs[..i + 1];
    assert list <= Join(xs[..i + 1]);
    JoinPrefix(xs, i + 1);
  }

  lemma DecimalTenth(n: nat)
    requires n >= 10
    ensures Decimal(n / 10) <= Decimal(n)
  {
  }

  lemma {:induction false} JoinPrefix(xs: seq<u64>, i: nat)
    requires i <= |xs|
    ensures Join(xs[..i]) <= Join(xs)
    decreases |xs| - i
  {
    hide Join, Decimal;
    if i == |xs| {
      assert xs[..i] == xs;
    } else {
      JoinAppend(xs[..i], xs[i]);
      assert xs[..i] + [xs[i]] == xs[..i + 1];
      JoinPrefix(xs, i + 1);
      if i == 0 {
        JoinNothing(xs[..0]);
      }
    }
  }

  /** A number of the set without its last digit, which is not in the set: a cut text claims it. */
  lemma CutTextLies(c: Checkpoint, x: u64) returns (text: string)
    requires x in c.completed && x >= 10 && x / 10 !in c.completed && '\n' !in c.filename
    ensures text <= Render(c) && Load(text).Some? && x / 10 in Load(text).value.completed
  {
    hide Join, CompletedList, Load, TextWith, ParseParts, Split;
    ListOf(c);
    var xs := CompletedList(c);
    var i :| 0 <= i < |xs| && xs[i] == x;
    var ys := xs[..i] + [x / 10];
    var list := CutAfterTenth(xs, i);
    JoinHasNoNewline(ys);
    text := WithoutNewline(c, list);
    LoadText(c, list);
    SplitJoin(ys);
    ParseDecimals(ys);
    assert ys[i] == x / 10;
    TextParts(c, list);
    TextParts(c, Join(xs));
    assert text == Front(c) + list by {
      DropLast(text, Front(c) + list, '\n');
    }
  }

  /** Chunks 0 and 12, saved without the last digit: chunk 1 is claimed. */
  lemma TwelveBecomesOne(c: Checkpoint) returns (text: string)
    requires c.completed == {0, 12} && '\n' !in c.filename
    ensures text <= Render(c) && Load(text).Some? && 1 in Load(text).value.completed
  {
    hide Render, Load;
    text := CutTextLies(c, 12);
  }

  lemma DropLast(a: string, b: string, d: char)
    requires a + [d] == b + [d]
    ensures a == b
  {
    assert (a + [d])[..|a|] == a && (b + [d])[..|b|] == b;
  }

  /**
   * Exactly the closed sets are safe: no cut text claims a chunk that was not recorded if and
   * only if the recorded set contains every one of its numbers without the last digit too.
   */
  lemma CutSafeIff(c: Checkpoint)
    requires '\n' !in c.filename
    ensures (forall text :: text <= Render(c) && Load(text).Some? ==> Load(text).value.completed <= c.completed) <==>
            Closed(c.completed)
  {
    hide Render, Load;
    if Closed(c.completed) {
      forall text | text <= Render(c) && Load(text).Some?
        ensures Load(text).value.completed <= c.completed
      {
        CutClosedLoads(c, text);
      }
    } else {
      var x :| x in c.completed && x >= 10 && x / 10 !in c.completed;
      var text := CutTextLies(c, x);
    }
  }
}
