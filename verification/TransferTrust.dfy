/**
 * Trust in a checkpoint. A history may start from any disk on which every chunk that a run
 * would trust is in the output; every step keeps it so. Where saves may be cut short
 * unnoticed, the trusted set must be closed, so that a cut text claims nothing new.
 */
module TransferTrust {
  import opened Base
  import opened Chunks
  import opened Checkpoint
  import opened CheckpointCut
  import opened Transfer
  import opened TransferAnySender
  import ManifestCodec
  import Sha256Spec

  // ---------------------------------------------------------------- the invariant

  /** Chunk `i` is in the output, byte for byte. */
  predicate Present(cfg: Config, d: Disk, i: nat) {
    var lo, hi := Start(cfg.manifest, i), End(cfg.manifest, i);
    d.output.Some? && lo <= hi <= |d.output.value| && hi <= |cfg.source| &&
    d.output.value[lo..hi] == cfg.source[lo..hi]
  }

  predicate AllPresent(cfg: Config, d: Disk, c: Checkpoint) {
    forall i :: i in c.completed ==> Present(cfg, d, i)
  }

  /** No run is under way, and every chunk that the next one would trust is in the output. */
  predicate Trustworthy(cfg: Config, s: State) {
    s.process == Idle && AllPresent(cfg, s.disk, Resume(cfg, s.disk).0)
  }

  /** What the program has recorded is in the output, and nothing is when it starts afresh. */
  predicate ProcessSound(cfg: Config, d: Disk, p: Process) {
    match p
    case Idle => true
    case Connected(c, afresh) => AllPresent(cfg, d, c) && (afresh ==> c.completed == {})
    case Saving(c, _, after, _) => AllPresent(cfg, d, c) && (after == PrepareNext(true) ==> c.completed == {})
    case Preparing(c, afresh, _) => AllPresent(cfg, d, c) && (afresh ==> c.completed == {})
    case Receiving(c, _, _) => AllPresent(cfg, d, c)
    case Finished(verified) =>
      d.output.Some? && cfg.source <= d.output.value && (d.output.value == cfg.source ==> verified)
  }

  predicate Sound(cfg: Config, s: State) {
    AllPresent(cfg, s.disk, Resume(cfg, s.disk).0) && ProcessSound(cfg, s.disk, s.process)
  }

  // ---------------------------------------------------------------- chunks and bytes

  lemma PayloadIsSlice(cfg: Config, i: u64)
    requires Consistent(cfg) && i < cfg.manifest.chunkCount
    ensures ByteOffset(cfg.manifest, i) == Start(cfg.manifest, i) < End(cfg.manifest, i) <= |cfg.source|
    ensures Payload(cfg, i) == Some(cfg.source[Start(cfg.manifest, i)..End(cfg.manifest, i)])
  {
    hide Planned, ByteOffset, PayloadSize, Start, End;
    StartInFile(cfg.manifest, i);
    PayloadIsExtent(cfg.manifest, i);
  }

  /** A chunk that keeps its bytes stays present. */
  lemma SameIsPresent(cfg: Config, d: Disk, d': Disk, i: u64)
    requires Present(cfg, d, i)
    ensures SameChunk(cfg, d, d, i) && (SameChunk(cfg, d, d', i) ==> Present(cfg, d', i))
  {
  }

  /** Data written at an offset is there. */
  lemma OverlayThere(b: Bytes, offset: nat, data: Bytes)
    ensures offset + |data| <= |Overlay(b, offset, data)|
    ensures Overlay(b, offset, data)[offset..offset + |data|] == data
  {
  }

  predicate Everything(cfg: Config, d: Disk) {
    d.output.Some? && forall i: u64 :: i < cfg.manifest.chunkCount ==> Present(cfg, d, i)
  }

  lemma ByteThere(cfg: Config, d: Disk, x: nat)
    requires Consistent(cfg) && Everything(cfg, d) && x < |cfg.source|
    ensures x < |d.output.value| && d.output.value[x] == cfg.source[x]
  {
    hide Consistent, Start, End;
    var i := ByteInChunk(cfg, x);
    assert Present(cfg, d, i);
    var lo, hi := Start(cfg.manifest, i), End(cfg.manifest, i);
    assert d.output.value[lo..hi][x - lo] == cfg.source[lo..hi][x - lo];
  }

  /** With all chunks present, the output begins with the source. */
  lemma AllChunksPresent(cfg: Config, d: Disk)
    requires Consistent(cfg) && Everything(cfg, d)
    ensures cfg.source <= d.output.value
  {
    hide Consistent, Present;
    var b := d.output.value;
    if cfg.source != [] {
      ByteThere(cfg, d, |cfg.source| - 1);
    }
    forall x | 0 <= x < |cfg.source|
      ensures b[x] == cfg.source[x]
    {
      ByteThere(cfg, d, x);
    }
  }

  lemma ByteInChunk(cfg: Config, x: nat) returns (i: u64)
    requires Consistent(cfg) && x < |cfg.source|
    ensures i < cfg.manifest.chunkCount && Start(cfg.manifest, i) <= x < End(cfg.manifest, i)
  {
    hide Planned, Start, End;
    i := ExtentsPartition(cfg.manifest, x);
  }

  lemma SourceLength(cfg: Config)
    requires Consistent(cfg)
    ensures |cfg.source| == cfg.manifest.fileSize && Counted(cfg.manifest)
  {
  }

  // ---------------------------------------------------------------- closed sets

  /** What is trusted on disk and what the program has recorded are closed. */
  predicate AllClosed(cfg: Config, s: State) {
    Closed(Resume(cfg, s.disk).0.completed) &&
    match s.process
    case Connected(c, _) => Closed(c.completed)
    case Saving(c, _, _, _) => Closed(c.completed)
    case Preparing(c, _, _) => Closed(c.completed)
    case Receiving(c, _, _) => Closed(c.completed)
    case _ => true
  }

  /** The program's files are as they should be: saved whole, or of closed sets. */
  predicate Settled(cfg: Config, s: State, limit: nat, whole: bool) {
    Bounded(cfg, s, limit) && Texts(s.disk, s.process, whole) && (whole || AllClosed(cfg, s))
  }

  /** The next run goes by no more than what was saved, even if the save of a closed set was cut short. */
  lemma SavedIsNoMore(cfg: Config, d: Disk, c: Checkpoint, whole: bool)
    requires Matches(c, cfg.manifest) && (whole || Closed(c.completed))
    requires d.checkpoint == None || d.output == None || TextOf(d.checkpoint, c, whole)
    ensures Resume(cfg, d).0.completed <= c.completed
    ensures Closed(c.completed) ==> Closed(Resume(cfg, d).0.completed)
  {
    hide Render, Load;
    if d.checkpoint == None || d.output == None {
      NoCheckpointStartsAfresh(cfg, d);
    } else if whole {
      SavedIsResumed(cfg, d, c);
    } else if !Resume(cfg, d).1 {
      LoadHasNoNewline(d.checkpoint.value);
      CutClosedLoads(c, d.checkpoint.value);
    }
  }

  /** The next missing chunk can be added to a closed set. */
  lemma NextKeepsClosed(cfg: Config, c: Checkpoint, todo: seq<u64>)
    requires Pending(cfg, c, todo) && todo != [] && Closed(c.completed)
    ensures Closed(c.completed + {todo[0]})
  {
    var i := todo[0];
    assert i in todo;
    assert forall x: u64 :: x < i ==> x !in todo;
  }

  lemma StepKeepsClosed(cfg: Config, s: State, e: Event, limit: nat)
    requires Bounded(cfg, s, limit) && Texts(s.disk, s.process, false) && AllClosed(cfg, s)
    ensures AllClosed(cfg, Step(cfg, s, e))
  {
    hide Render, Resume, Missing, Matches, Pending, Closed, Payload, PayloadSize, Serves, Overlay, ByteOffset,
      Sha256Spec.Sha256Hex, ManifestCodec.Acceptable;
    var d, d', p := s.disk, Step(cfg, s, e).disk, s.process;
    if p.Receiving? && p.todo != [] {
      NextKeepsClosed(cfg, p.cp, p.todo);
    }
    if d'.checkpoint == d.checkpoint && (d'.output.Some? <==> d.output.Some?) {
      SameFilesResumed(cfg, d, d');
    } else {
      SavedIsNoMore(cfg, d', p.cp, false);
    }
  }

  lemma StepSettled(cfg: Config, s: State, e: Event, limit: nat, whole: bool)
    requires Counted(cfg.manifest) && Settled(cfg, s, limit, whole) && (whole ==> !Short(e))
    ensures Settled(cfg, Step(cfg, s, e), limit, whole)
  {
    hide Counted, Bounded, Texts, AllClosed, Step, Short;
    StepStaysBounded(cfg, s, e, limit);
    StepKeepsTexts(cfg, s, e, whole);
    if !whole {
      StepKeepsClosed(cfg, s, e, limit);
    }
  }

  // ---------------------------------------------------------------- each step keeps it

  /** A saved checkpoint, or none, is one to trust as far as what it records is there. */
  lemma SavedIsTrusted(cfg: Config, d: Disk, c: Checkpoint, whole: bool)
    requires Matches(c, cfg.manifest) && AllPresent(cfg, d, c) && (whole || Closed(c.completed))
    requires d.checkpoint == None || d.output == None || TextOf(d.checkpoint, c, whole)
    ensures AllPresent(cfg, d, Resume(cfg, d).0)
  {
    hide Render, Resume, Present, Matches, Closed;
    SavedIsNoMore(cfg, d, c, whole);
  }

  lemma SaveKeeps(cfg: Config, s: State, e: Event, limit: nat, whole: bool)
    requires Settled(cfg, s, limit, whole) && Sound(cfg, s) && s.process.Saving? && e != Stop
    requires whole ==> !Short(e)
    ensures Sound(cfg, Step(cfg, s, e))
  {
    hide Render, Resume, Matches, Pending, Present;
    var d' := SaveStep(s.disk, s.process, e).0;
    SameBytesPresent(cfg, s.disk, d');
    if d'.checkpoint != s.disk.checkpoint {
      SavedIsTrusted(cfg, d', s.process.cp, whole);
    } else {
      SameFilesResumed(cfg, s.disk, d');
    }
  }

  lemma SameBytesPresent(cfg: Config, d: Disk, d': Disk)
    requires d'.output == d.output
    ensures forall i :: Present(cfg, d', i) <==> Present(cfg, d, i)
  {
  }

  lemma PrepareKeeps(cfg: Config, s: State, e: Event, limit: nat, whole: bool)
    requires Settled(cfg, s, limit, whole) && Sound(cfg, s) && s.process.Preparing? && e != Stop
    ensures Sound(cfg, Step(cfg, s, e))
  {
    hide Render, Resume, Matches, Pending, Present;
    var d' := Step(cfg, s, e).disk;
    if s.process.afresh {
      SavedIsTrusted(cfg, d', s.process.cp, whole);
    }
  }

  /** Recorded chunks are not touched, and an accepted chunk has the bytes of the source. */
  lemma ChunkKeeps(cfg: Config, s: State, e: Event, limit: nat, whole: bool)
    requires Consistent(cfg) && Settled(cfg, s, limit, whole) && Sound(cfg, s) && !Foreign(e)
    requires s.process.Receiving? && s.process.todo != []
    ensures Sound(cfg, ChunkStep(cfg, s, e))
  {
    hide Consistent, Render, Resume, Matches, Present, Serves, Payload, Overlay, ByteOffset, PayloadSize, SameChunk,
      Holding, Start, End;
    var s', c, i := ChunkStep(cfg, s, e), s.process.cp, s.process.todo[0];
    assert i in s.process.todo;
    SourceLength(cfg);
    forall j | j in c.completed
      ensures Present(cfg, s'.disk, j)
    {
      SameIsPresent(cfg, s.disk, s'.disk, j);
      ChunkElsewhere(cfg, s, e, j, limit);
    }
    if e == AcceptChunk && Serves(cfg, s.process.request) {
      AcceptedIsPresent(cfg, s);
    }
    WriteInExtent(cfg, s, e);
    SavedIsTrusted(cfg, s'.disk, c, whole);
  }

  lemma AcceptedIsPresent(cfg: Config, s: State)
    requires Consistent(cfg) && s.process.Receiving? && s.process.todo != [] && s.disk.output.Some?
    requires s.process.todo[0] < cfg.manifest.chunkCount && Serves(cfg, s.process.request)
    ensures Present(cfg, ChunkStep(cfg, s, AcceptChunk).disk, s.process.todo[0])
  {
    hide Consistent, Serves, Payload, Overlay, ByteOffset, Start, End;
    var i := s.process.todo[0];
    PayloadIsSlice(cfg, i);
    OverlayThere(s.disk.output.value, ByteOffset(cfg.manifest, i), Payload(cfg, i).value);
  }

  /** With nothing left to receive, the output begins with the source. */
  lemma NothingMissing(cfg: Config, s: State, limit: nat)
    requires Consistent(cfg) && Bounded(cfg, s, limit) && Sound(cfg, s) && AtComparison(s)
    ensures s.disk.output.Some? && cfg.source <= s.disk.output.value
  {
    hide Consistent, Render, Resume, Matches, Present;
    assert forall i: u64 :: i < cfg.manifest.chunkCount ==> i in s.process.cp.completed;
    AllChunksPresent(cfg, s.disk);
  }

  lemma CompareKeeps(cfg: Config, s: State, e: Event, limit: nat, whole: bool)
    requires Consistent(cfg) && Settled(cfg, s, limit, whole) && Sound(cfg, s) && AtComparison(s) && !Foreign(e)
    ensures Sound(cfg, DigestStep(cfg, s, e))
  {
    hide Consistent, Render, Resume, Matches, Present, Pending, Serves, Sha256Spec.Sha256Hex;
    NothingMissing(cfg, s, limit);
    var d' := DigestStep(cfg, s, e).disk;
    SameBytesPresent(cfg, s.disk, d');
    SavedIsTrusted(cfg, d', s.process.cp, whole);
  }

  lemma StepKeeps(cfg: Config, s: State, e: Event, limit: nat, whole: bool)
    requires Consistent(cfg) && Settled(cfg, s, limit, whole) && Sound(cfg, s) && !Foreign(e)
    requires whole ==> !Short(e)
    ensures Sound(cfg, Step(cfg, s, e))
  {
    hide Consistent, Bounded, Settled, Render, Load, Missing, SaveStep, ChunkStep, DigestStep, Present;
    var p := s.process;
    if e != Stop {
      if p.Saving? {
        SaveKeeps(cfg, s, e, limit, whole);
      } else if p.Preparing? {
        PrepareKeeps(cfg, s, e, limit, whole);
      } else if p.Receiving? && s.disk.output.Some? {
        if p.todo == [] {
          CompareKeeps(cfg, s, e, limit, whole);
        } else {
          ChunkKeeps(cfg, s, e, limit, whole);
        }
      }
    }
  }

  lemma {:induction false} ExecKeeps(cfg: Config, s: State, events: seq<Event>, limit: nat, whole: bool)
    requires Consistent(cfg) && Settled(cfg, s, limit, whole) && Sound(cfg, s) && Genuine(events)
    requires whole ==> Whole(events)
    ensures Sound(cfg, Exec(cfg, s, events))
    decreases |events|
  {
    hide Consistent, Counted, Settled, Sound, Step, Foreign, Short;
    SourceLength(cfg);
    if events != [] {
      StepKeeps(cfg, s, events[0], limit, whole);
      StepSettled(cfg, s, events[0], limit, whole);
      ExecKeeps(cfg, Step(cfg, s, events[0]), events[1..], limit, whole);
    }
  }

  // ---------------------------------------------------------------- the theorems

  /** The length that an output can reach. */
  function Reach(cfg: Config, s: State): nat {
    if OutputLength(s.disk) <= cfg.manifest.fileSize then cfg.manifest.fileSize else OutputLength(s.disk)
  }

  /** A run has received all it asked for and waits for the digest. */
  predicate AtComparison(s: State) {
    s.process.Receiving? && s.process.todo == []
  }

  lemma {:induction false} HistorySettled(cfg: Config, s: State, events: seq<Event>, limit: nat, whole: bool)
    requires Counted(cfg.manifest) && Settled(cfg, s, limit, whole) && (whole ==> Whole(events))
    ensures Settled(cfg, Exec(cfg, s, events), limit, whole)
    decreases |events|
  {
    hide Counted, Settled, Step, Short;
    if events != [] {
      StepSettled(cfg, s, events[0], limit, whole);
      HistorySettled(cfg, Step(cfg, s, events[0]), events[1..], limit, whole);
    }
  }

  /** No save is cut short, or what is trusted at the start is closed. */
  predicate Savable(cfg: Config, s: State, events: seq<Event>) {
    Whole(events) || Closed(Resume(cfg, s.disk).0.completed)
  }

  lemma HistorySound(cfg: Config, s: State, events: seq<Event>)
    requires Consistent(cfg) && Trustworthy(cfg, s) && Genuine(events) && Savable(cfg, s, events)
    ensures Sound(cfg, Exec(cfg, s, events)) && Bounded(cfg, Exec(cfg, s, events), Reach(cfg, s))
  {
    hide Consistent, Exec, Resume, Present, Genuine, Whole, Closed;
    SourceLength(cfg);
    HistorySettled(cfg, s, events, Reach(cfg, s), Whole(events));
    ExecKeeps(cfg, s, events, Reach(cfg, s), Whole(events));
  }

  lemma SameLength(a: Bytes, b: Bytes)
    requires a <= b
    ensures |b| <= |a| ==> a == b
  {
  }

  /**
   * The trust is needed: a chunk that the checkpoint records and whose bytes in the output
   * are not those of the source stays wrong, so no history delivers until a run
   * starts afresh or a save is cut short.
   */
  lemma WrongChunkStays(cfg: Config, s: State, events: seq<Event>, i: u64)
    requires Consistent(cfg) && s.process == Idle && OnlyResumes(cfg, s, events) && Whole(events)
    requires i in Resume(cfg, s.disk).0.completed && !Present(cfg, s.disk, i)
    requires s.disk.output.Some? && End(cfg.manifest, i) <= |s.disk.output.value|
    ensures !Present(cfg, Exec(cfg, s, events).disk, i) && Exec(cfg, s, events).disk.output != Some(cfg.source)
  {
    hide Consistent, Exec, Resume, OnlyResumes, Start, End, Whole;
    SourceLength(cfg);
    ResumeMatches(cfg, s.disk);
    ChunkExtent(cfg, i);
    TrustedChunksUntouched(cfg, s, events, i, Reach(cfg, s));
  }

  lemma ChunkExtent(cfg: Config, i: u64)
    requires Consistent(cfg) && i < cfg.manifest.chunkCount
    ensures Start(cfg.manifest, i) < End(cfg.manifest, i) <= |cfg.source|
  {
    hide Planned, Start, End;
    StartInFile(cfg.manifest, i);
  }

  /** A start without a checkpoint to go by trusts nothing. */
  lemma UnmatchedIsTrustworthy(cfg: Config, s: State, events: seq<Event>)
    requires Unmatched(cfg, s)
    ensures Trustworthy(cfg, s) && Savable(cfg, s, events)
  {
    hide Load;
  }
}
