/**
 * The shape of the disks that histories without an old checkpoint reach. Whoever sends,
 * recorded chunks are an initial segment that the output is long enough for, even if
 * saves are cut short. With this transfer's sender the output begins with them, and
 * without an old output it is a prefix of the source.
 */
module TransferShape {
  import opened Base
  import opened Indexes
  import opened Chunks
  import opened Checkpoint
  import opened CheckpointCut
  import opened Transfer
  import opened TransferAnySender
  import opened TransferTrust
  import Sha256Spec

  // ---------------------------------------------------------------- the invariant

  // Each predicate is about lengths only, or if `content`, about the bytes of the source too.

  predicate Fit(cfg: Config, content: bool) {
    Planned(cfg.manifest) && (content ==> |cfg.source| == cfg.manifest.fileSize)
  }

  /** The number of bytes of the first `k` chunks. */
  function Covered(cfg: Config, k: nat): nat {
    Min(k * cfg.manifest.chunkSize, cfg.manifest.fileSize)
  }

  /** The output begins with the first `n` bytes of the source. */
  predicate Holds(cfg: Config, d: Disk, n: nat, content: bool) {
    n <= OutputLength(d) &&
    (content ==> n <= |cfg.source| && (d.output.Some? ==> d.output.value[..n] == cfg.source[..n]))
  }

  /** `c` records the first `k` chunks and the output holds them. */
  predicate Records(cfg: Config, d: Disk, c: Checkpoint, k: nat, content: bool) {
    k <= cfg.manifest.chunkCount && c == FirstChunks(cfg, k) && Holds(cfg, d, Covered(cfg, k), content)
  }

  /** A checkpoint that the next run would go by records chunks that the output holds. */
  ghost predicate DiskInv(cfg: Config, d: Disk, content: bool) {
    !Resume(cfg, d).1 ==> exists k :: Records(cfg, d, Resume(cfg, d).0, k, content)
  }

  predicate AfterInv(cfg: Config, d: Disk, k: nat, after: After, request: seq<u64>)
    requires k <= cfg.manifest.chunkCount
  {
    match after
    case PrepareNext(afresh) =>
      (if afresh then k == 0 else d.output.Some?) && request == Range(k, cfg.manifest.chunkCount)
    case ReceiveNext(todo) =>
      d.output.Some? && todo == Range(k, cfg.manifest.chunkCount)
  }

  /** The program's checkpoint records the first `k` chunks, and its files agree with its place in the code. */
  predicate ProcessInv(cfg: Config, d: Disk, p: Process, k: nat, content: bool) {
    match p
    case Idle => true
    case Connected(c, afresh) => Records(cfg, d, c, k, content) && if afresh then k == 0 else d.output.Some?
    case Saving(c, _, after, request) => Records(cfg, d, c, k, content) && AfterInv(cfg, d, k, after, request)
    case Preparing(c, afresh, request) =>
      Records(cfg, d, c, k, content) && AfterInv(cfg, d, k, PrepareNext(afresh), request)
    case Receiving(c, todo, request) =>
      Records(cfg, d, c, k, content) && AfterInv(cfg, d, k, ReceiveNext(todo), request)
    case Finished(verified) =>
      d.output.Some? && Holds(cfg, d, cfg.manifest.fileSize, content) &&
      (content && d.output.value == cfg.source ==> verified)
  }

  ghost predicate Inv(cfg: Config, s: State, content: bool) {
    DiskInv(cfg, s.disk, content) && Texts(s.disk, s.process, false) &&
    exists k :: ProcessInv(cfg, s.disk, s.process, k, content)
  }

  // ---------------------------------------------------------------- arithmetic of prefixes

  lemma CoveredSteps(cfg: Config, k: nat)
    requires Planned(cfg.manifest) && k <= cfg.manifest.chunkCount
    ensures Covered(cfg, 0) == 0 && Covered(cfg, cfg.manifest.chunkCount) == cfg.manifest.fileSize
    ensures k < cfg.manifest.chunkCount ==>
              Covered(cfg, k) == Start(cfg.manifest, k) < End(cfg.manifest, k) == Covered(cfg, k + 1) &&
              End(cfg.manifest, k) <= cfg.manifest.fileSize
  {
    hide Planned;
    CountIsCeiling(cfg.manifest);
    if k < cfg.manifest.chunkCount {
      StartInFile(cfg.manifest, k);
    }
  }

  lemma CoveredGrows(cfg: Config, j: nat, k: nat)
    requires j <= k
    ensures Covered(cfg, j) <= Covered(cfg, k)
  {
    MulMono(j, k, cfg.manifest.chunkSize);
  }

  lemma HoldsLess(cfg: Config, d: Disk, n: nat, n': nat, content: bool)
    requires Holds(cfg, d, n, content) && n' <= n
    ensures Holds(cfg, d, n', content)
  {
    if content && d.output.Some? {
      SliceOfPrefix(d.output.value, n, 0, n');
      SliceOfPrefix(cfg.source, n, 0, n');
    }
  }

  lemma SliceOfPrefix(b: Bytes, n: nat, lo: nat, hi: nat)
    requires lo <= hi <= n <= |b|
    ensures b[..n][lo..hi] == b[lo..hi]
  {
  }

  // ---------------------------------------------------------------- each step keeps it

  /** A text of the first `k` chunks, even if it is cut off, leads to a checkpoint of some first `j` chunks. */
  lemma CutIsResumed(cfg: Config, d: Disk, k: nat) returns (j: nat)
    requires k <= cfg.manifest.chunkCount && TextOf(d.checkpoint, FirstChunks(cfg, k), false)
    ensures j <= k && Resume(cfg, d).0 == FirstChunks(cfg, j)
  {
    hide Render, Load;
    assert Below(0) == {};
    if Resume(cfg, d).1 {
      return 0;
    }
    LoadHasNoNewline(d.checkpoint.value);
    j := CutSegmentLoads(FirstChunks(cfg, k), k, d.checkpoint.value);
  }

  /** A new run's checkpoint records what the output holds. */
  lemma ResumeRecords(cfg: Config, d: Disk, content: bool) returns (k: nat)
    requires Fit(cfg, content) && DiskInv(cfg, d, content)
    ensures var (c, afresh) := Resume(cfg, d); ProcessInv(cfg, d, Connected(c, afresh), k, content)
  {
    hide Load, Planned;
    var (c, afresh) := Resume(cfg, d);
    if afresh {
      k := 0;
      CoveredSteps(cfg, 0);
      assert Below(0) == {};
    } else {
      k :| Records(cfg, d, c, k, content);
    }
    ResumeNeedsOutput(cfg, d);
  }

  /** A saved checkpoint is one to go by, even if it is cut off. */
  lemma SavedKeepsDisk(cfg: Config, d: Disk, c: Checkpoint, k: nat, content: bool)
    requires Records(cfg, d, c, k, content) && TextOf(d.checkpoint, c, false)
    ensures DiskInv(cfg, d, content)
  {
    hide Render, Resume, Holds, FirstChunks, Covered, TextOf;
    var j := CutIsResumed(cfg, d, k);
    CoveredGrows(cfg, j, k);
    HoldsLess(cfg, d, Covered(cfg, k), Covered(cfg, j), content);
    assert Records(cfg, d, FirstChunks(cfg, j), j, content);
  }

  lemma SaveKeepsSegment(cfg: Config, d: Disk, p: Process, k: nat, e: Event, content: bool)
    requires DiskInv(cfg, d, content) && p.Saving? && ProcessInv(cfg, d, p, k, content) && Texts(d, p, false)
    ensures var (d', p') := SaveStep(d, p, e); DiskInv(cfg, d', content) && ProcessInv(cfg, d', p', k, content)
  {
    hide Render, FirstChunks, Covered, Resume;
    var (d', p') := SaveStep(d, p, e);
    assert forall c, j :: Records(cfg, d, c, j, content) <==> Records(cfg, d', c, j, content);
    if p.stage == Renaming && e == RenameTemp {
      SavedKeepsDisk(cfg, d', p.cp, k, content);
    } else if d'.checkpoint == None {
      NoCheckpointStartsAfresh(cfg, d');
    } else {
      SameFilesResumed(cfg, d, d');
    }
  }

  lemma PrepareKeepsSegment(cfg: Config, d: Disk, p: Process, k: nat, content: bool)
    requires Fit(cfg, content) && DiskInv(cfg, d, content) && p.Preparing? && ProcessInv(cfg, d, p, k, content)
    requires Texts(d, p, false)
    ensures var d' := if p.afresh then d.(output := Some([])) else d;
            DiskInv(cfg, d', content) && ProcessInv(cfg, d', Receiving(p.cp, p.request, p.request), k, content)
  {
    hide Render, Planned, Resume, TextOf;
    if p.afresh {
      CoveredSteps(cfg, 0);
      SavedKeepsDisk(cfg, d.(output := Some([])), p.cp, 0, content);
    }
  }

  /** Bytes of the source, written where they belong, spoil nothing that the output held, and extend it. */
  lemma OverlayHolds(cfg: Config, d: Disk, d': Disk, lo: nat, data: Bytes, n: nat, content: bool)
    requires d.output.Some? && lo <= OutputLength(d) && Holds(cfg, d, n, content)
    requires d' == d.(output := Some(Overlay(d.output.value, lo, data)))
    requires content ==> lo + |data| <= |cfg.source| && data == cfg.source[lo..lo + |data|]
    ensures Holds(cfg, d', n, content) && (lo <= n <= lo + |data| ==> Holds(cfg, d', lo + |data|, content))
    ensures OutputLength(d') == if lo + |data| <= OutputLength(d) then OutputLength(d) else lo + |data|
  {
    var b, b', m := d.output.value, d'.output.value, if lo <= n <= lo + |data| then lo + |data| else n;
    if content {
      assert forall i :: 0 <= i < m ==> b'[i] == cfg.source[i] by {
        assert forall i :: 0 <= i < n ==> b[i] == b[..n][i] == cfg.source[..n][i] == cfg.source[i];
      }
    }
  }

  /** So the checkpoint on disk is still one to go by. */
  lemma OutputGrows(cfg: Config, d: Disk, d': Disk, lo: nat, data: Bytes, content: bool)
    requires DiskInv(cfg, d, content) && d.output.Some? && Holds(cfg, d, lo, content)
    requires d' == d.(output := Some(Overlay(d.output.value, lo, data)))
    requires content ==> lo + |data| <= |cfg.source| && data == cfg.source[lo..lo + |data|]
    ensures DiskInv(cfg, d', content) && Holds(cfg, d', lo + |data|, content)
    ensures OutputLength(d') == if lo + |data| <= OutputLength(d) then OutputLength(d) else lo + |data|
  {
    hide Covered, FirstChunks, Overlay, Resume;
    OverlayHolds(cfg, d, d', lo, data, lo, content);
    SameFilesResumed(cfg, d, d');
    var (c, afresh) := Resume(cfg, d);
    if !afresh {
      var k :| Records(cfg, d, c, k, content);
      OverlayHolds(cfg, d, d', lo, data, Covered(cfg, k), content);
      assert Records(cfg, d', c, k, content);
    }
  }

  /** The next chunk continues the recorded segment, and its place is within the output or at its end. */
  lemma NextChunk(cfg: Config, s: State, k: nat, content: bool)
    requires Fit(cfg, content) && s.process.Receiving? && s.process.todo != []
    requires ProcessInv(cfg, s.disk, s.process, k, content)
    ensures k < cfg.manifest.chunkCount && s.process.todo == [k] + Range(k + 1, cfg.manifest.chunkCount)
    ensures s.disk.output.Some?
    ensures var lo, hi := Start(cfg.manifest, k), End(cfg.manifest, k);
            Holds(cfg, s.disk, lo, content) && lo < hi <= cfg.manifest.fileSize && hi == Covered(cfg, k + 1) &&
            ByteOffset(cfg.manifest, k) == lo && PayloadSize(cfg.manifest, k) == hi - lo &&
            (content ==> hi <= |cfg.source| && Payload(cfg, k) == Some(cfg.source[lo..hi]))
  {
    hide Planned, ByteOffset, PayloadSize, Payload, Covered, FirstChunks, Holds;
    RangeStep(k, cfg.manifest.chunkCount);
    CoveredSteps(cfg, k);
    PayloadIsExtent(cfg.manifest, k);
    if content {
      PayloadIsSlice(cfg, k);
    }
  }

  /** The data of a chunk: of its size, and if `content`, the bytes of the source. */
  predicate DataFor(cfg: Config, i: u64, data: Bytes, content: bool) {
    |data| == PayloadSize(cfg.manifest, i) && (content ==> Payload(cfg, i) == Some(data))
  }

  lemma StoreKeepsSegment(cfg: Config, s: State, k: nat, data: Bytes, content: bool)
    requires Fit(cfg, content) && DiskInv(cfg, s.disk, content) && s.process.Receiving? && s.process.todo != []
    requires ProcessInv(cfg, s.disk, s.process, k, content) && DataFor(cfg, s.process.todo[0], data, content)
    requires s.disk.output.Some?
    ensures var s', hi := StoreStep(cfg, s, data), End(cfg.manifest, k);
            DiskInv(cfg, s'.disk, content) && ProcessInv(cfg, s'.disk, s'.process, k + 1, content) &&
            OutputLength(s'.disk) == if hi <= OutputLength(s.disk) then OutputLength(s.disk) else hi
  {
    hide Planned, ByteOffset, PayloadSize, Payload, DiskInv, Overlay, Covered, Start, End, Holds;
    NextChunk(cfg, s, k, content);
    var m, s' := cfg.manifest, StoreStep(cfg, s, data);
    OutputGrows(cfg, s.disk, s'.disk, Start(m, k), data, content);
    assert Below(k) + {k} == Below(k + 1);
    assert s.process.todo[1..] == Range(k + 1, m.chunkCount);
  }

  lemma TornKeepsSegment(cfg: Config, s: State, k: nat, data: Bytes, n: nat, content: bool)
    requires Fit(cfg, content) && DiskInv(cfg, s.disk, content) && s.process.Receiving? && s.process.todo != []
    requires ProcessInv(cfg, s.disk, s.process, k, content) && DataFor(cfg, s.process.todo[0], data, content)
    requires s.disk.output.Some?
    ensures var s' := TornStep(cfg, s, data, n);
            DiskInv(cfg, s'.disk, content) && ProcessInv(cfg, s'.disk, s'.process, k, content)
  {
    hide Planned, ByteOffset, PayloadSize, Payload, DiskInv, Overlay, Covered, FirstChunks, Start, End, Holds, Records;
    NextChunk(cfg, s, k, content);
    var lo, s' := Start(cfg.manifest, k), TornStep(cfg, s, data, n);
    if n <= |data| {
      assert content ==> data[..n] == cfg.source[lo..lo + n];
      OutputGrows(cfg, s.disk, s'.disk, lo, data[..n], content);
    }
  }

  lemma ChunkKeepsSegment(cfg: Config, s: State, k: nat, e: Event, content: bool)
    requires Fit(cfg, content) && DiskInv(cfg, s.disk, content) && s.process.Receiving? && s.process.todo != []
    requires ProcessInv(cfg, s.disk, s.process, k, content) && s.disk.output.Some? && (content ==> !Foreign(e))
    ensures var s' := ChunkStep(cfg, s, e);
            DiskInv(cfg, s'.disk, content) &&
            ProcessInv(cfg, s'.disk, s'.process, if s'.process.Saving? then k + 1 else k, content)
  {
    hide Planned, Payload, PayloadSize, DiskInv, Overlay, ByteOffset, ProcessInv, Serves;
    var i := s.process.todo[0];
    PayloadLength(cfg, i);
    match e
    case AcceptChunk =>
      if Serves(cfg, s.process.request) && Payload(cfg, i).Some? {
        StoreKeepsSegment(cfg, s, k, Payload(cfg, i).value, content);
      }
    case TornWrite(n) =>
      if Serves(cfg, s.process.request) && Payload(cfg, i).Some? {
        TornKeepsSegment(cfg, s, k, Payload(cfg, i).value, n, content);
        TornIsNotSaving(cfg, s, Payload(cfg, i).value, n);
      }
    case ForeignChunk(data) =>
      if |data| == PayloadSize(cfg.manifest, i) {
        StoreKeepsSegment(cfg, s, k, data, content);
      }
    case ForeignTorn(data, n) =>
      if |data| == PayloadSize(cfg.manifest, i) {
        TornKeepsSegment(cfg, s, k, data, n, content);
        TornIsNotSaving(cfg, s, data, n);
      }
    case _ =>
  }

  lemma TornIsNotSaving(cfg: Config, s: State, data: Bytes, n: nat)
    requires s.process.Receiving? && s.process.todo != [] && s.disk.output.Some?
    ensures !TornStep(cfg, s, data, n).process.Saving?
  {
    hide Overlay, ByteOffset;
  }

  /** With nothing left to receive, the output holds the whole file. */
  lemma NothingLeft(cfg: Config, d: Disk, p: Process, k: nat, content: bool)
    requires Fit(cfg, content) && ProcessInv(cfg, d, p, k, content) && p.Receiving? && p.todo == []
    ensures d.output.Some? && Holds(cfg, d, cfg.manifest.fileSize, content)
  {
    hide Planned, Covered;
    CoveredSteps(cfg, k);
    assert k == cfg.manifest.chunkCount;
  }

  lemma StepKeepsSegment(cfg: Config, s: State, e: Event, content: bool)
    requires Fit(cfg, content) && Inv(cfg, s, content) && (content ==> !Foreign(e))
    ensures Inv(cfg, Step(cfg, s, e), content)
  {
    hide Fit, SaveStep, ChunkStep, DigestStep, Resume, Records, Missing, AfterInv, Holds, Texts, DiskInv;
    var p := s.process;
    var k: nat :| ProcessInv(cfg, s.disk, p, k, content);
    StepKeepsTexts(cfg, s, e, false);
    if e == Stop {
      assert ProcessInv(cfg, s.disk, Idle, k, content);
    } else {
      match p
      case Idle =>
        var k' := ResumeRecords(cfg, s.disk, content);
      case Finished(_) =>
        var k' := ResumeRecords(cfg, s.disk, content);
      case Connected(c, afresh) =>
        ConnectedKeepsSegment(cfg, s.disk, c, afresh, k, content);
      case Saving(_, _, _, _) =>
        SaveKeepsSegment(cfg, s.disk, p, k, e, content);
      case Preparing(c, afresh, request) =>
        PrepareKeepsSegment(cfg, s.disk, p, k, content);
      case Receiving(_, todo, request) =>
        if s.disk.output.Some? {
          if todo == [] {
            CompareKeepsSegment(cfg, s, k, e, content);
          } else {
            ChunkKeepsSegment(cfg, s, k, e, content);
          }
        }
    }
  }

  lemma ConnectedKeepsSegment(cfg: Config, d: Disk, c: Checkpoint, afresh: bool, k: nat, content: bool)
    requires ProcessInv(cfg, d, Connected(c, afresh), k, content)
    ensures ProcessInv(cfg, d, Saving(c, Opening, PrepareNext(afresh), Missing(c)), k, content)
  {
    hide Missing, FirstChunks, Covered;
    MissingAfter(cfg, k);
  }

  lemma CompareKeepsSegment(cfg: Config, s: State, k: nat, e: Event, content: bool)
    requires Fit(cfg, content) && DiskInv(cfg, s.disk, content) && ProcessInv(cfg, s.disk, s.process, k, content)
    requires s.process.Receiving? && s.process.todo == [] && s.disk.output.Some? && (content ==> !Foreign(e))
    ensures var s' := DigestStep(cfg, s, e);
            DiskInv(cfg, s'.disk, content) && ProcessInv(cfg, s'.disk, s'.process, k, content)
  {
    hide Fit, Serves, Sha256Spec.Sha256Hex, Covered, FirstChunks, Resume;
    var s' := DigestStep(cfg, s, e);
    NothingLeft(cfg, s.disk, s.process, k, content);
    if s'.disk.checkpoint == None {
      NoCheckpointStartsAfresh(cfg, s'.disk);
    }
  }

  lemma {:induction false} ExecKeepsSegment(cfg: Config, s: State, events: seq<Event>, content: bool)
    requires Fit(cfg, content) && Inv(cfg, s, content) && (content ==> Genuine(events))
    ensures Inv(cfg, Exec(cfg, s, events), content)
    decreases |events|
  {
    hide Fit, Inv, Step, Foreign;
    if events != [] {
      StepKeepsSegment(cfg, s, events[0], content);
      ExecKeepsSegment(cfg, Step(cfg, s, events[0]), events[1..], content);
    }
  }

  /** The invariant holds at the start, whatever output is there. */
  lemma UnmatchedInv(cfg: Config, s: State, content: bool)
    requires Unmatched(cfg, s)
    ensures Inv(cfg, s, content)
  {
    hide Resume;
    assert ProcessInv(cfg, s.disk, s.process, 0, content);
  }

  lemma HistoryInv(cfg: Config, s: State, events: seq<Event>, content: bool)
    requires Fit(cfg, content) && Unmatched(cfg, s) && (content ==> Genuine(events))
    ensures Inv(cfg, Exec(cfg, s, events), content)
  {
    hide Inv, Fit, Exec, Unmatched, Genuine;
    UnmatchedInv(cfg, s, content);
    ExecKeepsSegment(cfg, s, events, content);
  }

  lemma ConsistentFits(cfg: Config)
    requires Consistent(cfg)
    ensures Fit(cfg, true)
  {
  }

  // ---------------------------------------------------------------- histories without an old output

  /** The checkpoint is the text of the first `k` chunks, and the output is long enough for them. */
  predicate Covers(cfg: Config, d: Disk, k: nat, whole: bool) {
    k <= cfg.manifest.chunkCount && TextOf(d.checkpoint, FirstChunks(cfg, k), whole) &&
    Covered(cfg, k) <= OutputLength(d)
  }

  /** An existing output is a prefix of the source, and a checkpoint beside it records chunks that it holds. */
  ghost predicate Shape(cfg: Config, d: Disk, whole: bool) {
    d.output.Some? ==>
      d.output.value <= cfg.source && (d.checkpoint.Some? ==> exists k :: Covers(cfg, d, k, whole))
  }

  /** Writing a slice of the source where it belongs keeps a prefix a prefix. */
  lemma OverlayPrefix(source: Bytes, b: Bytes, lo: nat, hi: nat)
    requires b <= source && lo <= |b| && lo <= hi <= |source|
    ensures Overlay(b, lo, source[lo..hi]) == source[..if hi <= |b| then |b| else hi]
  {
  }

  lemma WriteKeepsShape(cfg: Config, d: Disk, d': Disk, lo: nat, hi: nat, whole: bool)
    requires Shape(cfg, d, whole) && d.output.Some? && lo <= OutputLength(d) && lo <= hi <= |cfg.source|
    requires d' == d.(output := Some(Overlay(d.output.value, lo, cfg.source[lo..hi])))
    ensures Shape(cfg, d', whole)
  {
    hide TextOf, Covered, FirstChunks, Overlay;
    OverlayPrefix(cfg.source, d.output.value, lo, hi);
    if d.checkpoint.Some? {
      var k :| Covers(cfg, d, k, whole);
      assert Covers(cfg, d', k, whole);
    }
  }

  lemma ChunkKeepsShape(cfg: Config, s: State, k: nat, e: Event, whole: bool)
    requires Fit(cfg, true) && Shape(cfg, s.disk, whole) && s.process.Receiving? && s.process.todo != []
    requires ProcessInv(cfg, s.disk, s.process, k, true) && s.disk.output.Some? && !Foreign(e)
    ensures Shape(cfg, ChunkStep(cfg, s, e).disk, whole)
  {
    hide Planned, ByteOffset, PayloadSize, Payload, Overlay, Covered, Serves, Start, End, Shape;
    NextChunk(cfg, s, k, true);
    var lo, hi, d' := Start(cfg.manifest, k), End(cfg.manifest, k), ChunkStep(cfg, s, e).disk;
    if d' != s.disk {
      if e.TornWrite? {
        assert cfg.source[lo..hi][..e.n] == cfg.source[lo..lo + e.n];
        WriteKeepsShape(cfg, s.disk, d', lo, lo + e.n, whole);
      } else {
        WriteKeepsShape(cfg, s.disk, d', lo, hi, whole);
      }
    }
  }

  lemma SaveKeepsShape(cfg: Config, d: Disk, p: Process, k: nat, e: Event, whole: bool)
    requires Shape(cfg, d, whole) && p.Saving? && ProcessInv(cfg, d, p, k, true) && Texts(d, p, whole)
    ensures Shape(cfg, SaveStep(d, p, e).0, whole)
  {
    hide Render, FirstChunks, Covered;
    var d' := SaveStep(d, p, e).0;
    if p.stage == Renaming && e == RenameTemp {
      assert Covers(cfg, d', k, whole);
    } else {
      assert forall j :: Covers(cfg, d, j, whole) && d'.checkpoint.Some? ==> Covers(cfg, d', j, whole);
    }
  }

  lemma StepKeepsShape(cfg: Config, s: State, e: Event, whole: bool)
    requires Fit(cfg, true) && Inv(cfg, s, true) && Texts(s.disk, s.process, whole) && Shape(cfg, s.disk, whole)
    requires !Foreign(e)
    ensures Shape(cfg, Step(cfg, s, e).disk, whole)
  {
    hide Planned, TextOf, Sha256Spec.Sha256Hex, SaveStep, ChunkStep, Serves, Resume, Missing, FirstChunks, Covered,
      DiskInv;
    var p, d, d' := s.process, s.disk, Step(cfg, s, e).disk;
    var k: nat :| ProcessInv(cfg, d, p, k, true);
    if e != Stop && p.Saving? {
      SaveKeepsShape(cfg, d, p, k, e, whole);
    } else if e != Stop && p.Receiving? && p.todo != [] && d.output.Some? {
      ChunkKeepsShape(cfg, s, k, e, whole);
    } else if d'.output != d.output {
      CoveredSteps(cfg, 0);
      assert Covers(cfg, d', 0, whole);
    } else {
      assert forall j :: Covers(cfg, d, j, whole) && d'.checkpoint.Some? ==> Covers(cfg, d', j, whole);
    }
  }

  lemma {:induction false} ExecKeepsShape(cfg: Config, s: State, events: seq<Event>, whole: bool)
    requires Fit(cfg, true) && Inv(cfg, s, true) && Texts(s.disk, s.process, whole) && Shape(cfg, s.disk, whole)
    requires Genuine(events) && (whole ==> Whole(events))
    ensures Shape(cfg, Exec(cfg, s, events).disk, whole)
    decreases |events|
  {
    hide Fit, Inv, Shape, Step, Foreign, Texts, Short;
    if events != [] {
      StepKeepsSegment(cfg, s, events[0], true);
      StepKeepsShape(cfg, s, events[0], whole);
      StepKeepsTexts(cfg, s, events[0], whole);
      ExecKeepsShape(cfg, Step(cfg, s, events[0]), events[1..], whole);
    }
  }

  lemma InitialIsUnmatched(cfg: Config, s: State)
    requires Initial(s)
    ensures Unmatched(cfg, s)
  {
    hide Load;
  }

  /**
   * Reachable-state shape: at every moment of every history that starts without an
   * output, an existing output is a prefix of the source, and a checkpoint beside it is
   * the text of an initial segment of the chunks, all of which the output holds. If a save
   * was cut short, it is a part of such a text.
   */
  lemma ReachableShape(cfg: Config, s: State, events: seq<Event>)
    requires Consistent(cfg) && Initial(s) && Genuine(events)
    ensures var d := Exec(cfg, s, events).disk;
            d.output.Some? ==>
              d.output.value <= cfg.source &&
              (d.checkpoint.Some? ==>
                 exists k :: 0 <= k <= cfg.manifest.chunkCount && Covered(cfg, k) <= |d.output.value| &&
                             TextOf(d.checkpoint, FirstChunks(cfg, k), Whole(events)))
  {
    hide TextOf, Exec, Inv, Consistent, Covered, FirstChunks, Genuine, Whole, Unmatched;
    InitialIsUnmatched(cfg, s);
    ConsistentFits(cfg);
    UnmatchedInv(cfg, s, true);
    ExecKeepsShape(cfg, s, events, Whole(events));
    var d := Exec(cfg, s, events).disk;
    if d.output.Some? && d.checkpoint.Some? {
      var k :| Covers(cfg, d, k, Whole(events));
    }
  }

  // ---------------------------------------------------------------- recorded chunks

  lemma HeldIsPresent(cfg: Config, d: Disk, n: nat, i: nat)
    requires d.output.Some? && Holds(cfg, d, n, true) && Start(cfg.manifest, i) <= End(cfg.manifest, i) <= n
    ensures Present(cfg, d, i)
  {
    hide Start, End;
    var lo, hi, b := Start(cfg.manifest, i), End(cfg.manifest, i), d.output.value;
    SliceOfPrefix(b, n, lo, hi);
    SliceOfPrefix(cfg.source, n, lo, hi);
  }

  lemma RecordedIsPresent(cfg: Config, d: Disk, c: Checkpoint, k: nat, i: nat)
    requires Consistent(cfg) && d.output.Some? && Records(cfg, d, c, k, true) && i < k
    ensures Present(cfg, d, i)
  {
    hide Planned, FirstChunks, Present, Covered, Start, End;
    CoveredSteps(cfg, i);
    CoveredGrows(cfg, i + 1, k);
    HeldIsPresent(cfg, d, Covered(cfg, k), i);
  }
}
