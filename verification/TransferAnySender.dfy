/**
 * What the receiver guarantees whoever sends. No history, with any bytes under any
 * acceptable headers, makes the output longer than the file, if it was not longer
 * before, or records a chunk that does not exist. A chunk that a run has recorded keeps
 * its bytes for the rest of that run, and one that the checkpoint on disk records
 * keeps them until a run starts afresh or a save is cut short.
 */
module TransferAnySender {
  import opened Base
  import opened Protocol
  import opened Indexes
  import opened Chunks
  import opened Checkpoint
  import opened Transfer
  import Sha256Spec

  // ---------------------------------------------------------------- bounds

  /** The chunks still to come are those not yet recorded, in increasing order. */
  predicate Pending(cfg: Config, c: Checkpoint, todo: seq<u64>) {
    StrictlyIncreasing(todo) &&
    forall i: u64 :: i in todo <==> i < cfg.manifest.chunkCount && i !in c.completed
  }

  /** The program's checkpoint fits the manifest, and what is recorded and awaited are all the chunks. */
  predicate ProcessBounded(cfg: Config, d: Disk, p: Process) {
    match p
    case Idle => true
    case Connected(c, _) => Matches(c, cfg.manifest)
    case Saving(c, stage, after, request) =>
      Matches(c, cfg.manifest) && Pending(cfg, c, if after.ReceiveNext? then after.todo else request) &&
      (after.ReceiveNext? ==> d.output.Some?)
    case Preparing(c, _, request) => Matches(c, cfg.manifest) && Pending(cfg, c, request)
    case Receiving(c, todo, _) => Matches(c, cfg.manifest) && Pending(cfg, c, todo) && d.output.Some?
    case Finished(_) => d.output.Some?
  }

  predicate Bounded(cfg: Config, s: State, limit: nat) {
    OutputLength(s.disk) <= limit && cfg.manifest.fileSize <= limit && ProcessBounded(cfg, s.disk, s.process)
  }

  lemma OverlayLength(b: Bytes, offset: nat, data: Bytes, limit: nat)
    requires |b| <= limit && offset + |data| <= limit
    ensures |Overlay(b, offset, data)| <= limit
  {
  }

  /** Whatever arrives for a chunk is written within that chunk's extent. */
  lemma WriteInExtent(cfg: Config, s: State, e: Event)
    requires Counted(cfg.manifest) && s.process.Receiving? && s.process.todo != [] && s.disk.output.Some?
    requires s.process.todo[0] < cfg.manifest.chunkCount
    ensures var b, i, s' := s.disk.output.value, s.process.todo[0], ChunkStep(cfg, s, e);
            Start(cfg.manifest, i) < End(cfg.manifest, i) <= cfg.manifest.fileSize && s'.disk.output.Some? &&
            (s'.disk.output.value == b ||
             exists data :: |data| <= End(cfg.manifest, i) - Start(cfg.manifest, i) &&
                            s'.disk.output.value == Overlay(b, Start(cfg.manifest, i), data))
  {
    hide Counted, Planned, Payload, Overlay, ByteOffset, PayloadSize, Serves, Start, End;
    var i := s.process.todo[0];
    ChunksArePlanned(cfg.manifest);
    StartInFile(cfg.manifest, i);
    PayloadIsExtent(cfg.manifest, i);
    PayloadLength(cfg, i);
  }

  lemma ChunkStaysBounded(cfg: Config, s: State, e: Event, limit: nat)
    requires Counted(cfg.manifest) && Bounded(cfg, s, limit) && s.process.Receiving? && s.process.todo != []
    ensures Bounded(cfg, ChunkStep(cfg, s, e), limit)
  {
    hide Counted, Payload, Overlay, ByteOffset, PayloadSize, Serves, Start, End, Matches, Render;
    var i, p, s' := s.process.todo[0], s.process, ChunkStep(cfg, s, e);
    assert i in p.todo;
    WriteInExtent(cfg, s, e);
    if s'.disk.output.value != s.disk.output.value {
      var data :| |data| <= End(cfg.manifest, i) - Start(cfg.manifest, i) &&
                  s'.disk.output.value == Overlay(s.disk.output.value, Start(cfg.manifest, i), data);
      OverlayLength(s.disk.output.value, Start(cfg.manifest, i), data, limit);
    }
    OneMorePends(cfg, p.cp, p.todo);
  }

  lemma OneMorePends(cfg: Config, c: Checkpoint, todo: seq<u64>)
    requires Matches(c, cfg.manifest) && Pending(cfg, c, todo) && todo != []
    ensures var c' := c.(completed := c.completed + {todo[0]}); Matches(c', cfg.manifest) && Pending(cfg, c', todo[1..])
  {
    var c', i, rest := c.(completed := c.completed + {todo[0]}), todo[0], todo[1..];
    assert todo == [i] + rest && i in todo;
    forall j: u64
      ensures j in rest <==> j < cfg.manifest.chunkCount && j !in c'.completed
    {
      assert j in todo <==> j == i || j in rest;
    }
  }

  lemma ResumeMatches(cfg: Config, d: Disk)
    ensures Matches(Resume(cfg, d).0, cfg.manifest)
  {
    hide Load;
  }

  lemma SaveStaysBounded(cfg: Config, d: Disk, p: Process, e: Event)
    requires p.Saving? && ProcessBounded(cfg, d, p)
    ensures var (d', p') := SaveStep(d, p, e); d'.output == d.output && ProcessBounded(cfg, d', p')
  {
    hide Render, Matches, Pending;
  }

  lemma DigestStaysBounded(cfg: Config, s: State, e: Event, limit: nat)
    requires Bounded(cfg, s, limit) && s.process.Receiving? && s.process.todo == []
    ensures Bounded(cfg, DigestStep(cfg, s, e), limit)
  {
    hide Serves, Sha256Spec.Sha256Hex;
  }

  /** Every event keeps the bounds, also one that another sender causes. */
  lemma StepStaysBounded(cfg: Config, s: State, e: Event, limit: nat)
    requires Counted(cfg.manifest) && Bounded(cfg, s, limit)
    ensures Bounded(cfg, Step(cfg, s, e), limit)
  {
    hide Counted, Render, Load, ChunkStep, DigestStep, SaveStep, Resume, Missing, Matches, Pending, FirstChunks;
    if e != Stop {
      match s.process
      case Idle => ResumeMatches(cfg, s.disk);
      case Finished(_) => ResumeMatches(cfg, s.disk);
      case Connected(c, _) => MissingPends(cfg, c);
      case Saving(_, _, _, _) => SaveStaysBounded(cfg, s.disk, s.process, e);
      case Preparing(_, _, _) =>
      case Receiving(_, todo, _) =>
        if todo == [] {
          DigestStaysBounded(cfg, s, e, limit);
        } else {
          ChunkStaysBounded(cfg, s, e, limit);
        }
    }
  }

  lemma MissingPends(cfg: Config, c: Checkpoint)
    requires Matches(c, cfg.manifest)
    ensures Pending(cfg, c, Missing(c))
  {
    hide Missing;
    RequestIsValid(cfg.manifest, c);
  }

  /**
   * Over every history, for any manifest the decoder accepts and any sender, the output
   * never outgrows the file, or its own length at the start if that was more, and
   * the chunks recorded and awaited are exactly the chunks of the manifest.
   */
  lemma {:induction false} AnySenderStaysInFile(cfg: Config, s: State, events: seq<Event>, limit: nat)
    requires Counted(cfg.manifest) && Bounded(cfg, s, limit)
    ensures Bounded(cfg, Exec(cfg, s, events), limit)
    decreases |events|
  {
    hide Counted, Bounded, Step;
    if events != [] {
      StepStaysBounded(cfg, s, events[0], limit);
      AnySenderStaysInFile(cfg, Step(cfg, s, events[0]), events[1..], limit);
    }
  }

  // ---------------------------------------------------------------- recorded chunks

  /** A write within one extent leaves the bytes of another as they were. */
  lemma OverlayElsewhere(b: Bytes, offset: nat, data: Bytes, lo: nat, hi: nat)
    requires lo <= hi <= |b| && (offset + |data| <= lo || hi <= offset)
    ensures hi <= |Overlay(b, offset, data)| && Overlay(b, offset, data)[lo..hi] == b[lo..hi]
  {
  }

  lemma ExtentsApart(m: FileManifest, i: nat, j: nat)
    requires i != j
    ensures End(m, i) <= Start(m, j) || End(m, j) <= Start(m, i)
  {
    if i < j {
      MulMono(i + 1, j, m.chunkSize);
    } else {
      MulMono(j + 1, i, m.chunkSize);
    }
  }

  /** A run that has recorded chunk `i` and does not start afresh, or no run. */
  predicate Holding(p: Process, i: u64) {
    match p
    case Idle => true
    case Finished(_) => true
    case Connected(c, afresh) => !afresh && i in c.completed
    case Saving(c, _, after, _) => after != PrepareNext(true) && i in c.completed
    case Preparing(c, afresh, _) => !afresh && i in c.completed
    case Receiving(c, _, _) => i in c.completed
  }

  /** The output of `d` holds the whole of chunk `i`, and that of `d'` holds the same bytes there. */
  predicate SameChunk(cfg: Config, d: Disk, d': Disk, i: u64) {
    var lo, hi := Start(cfg.manifest, i), End(cfg.manifest, i);
    d.output.Some? && d'.output.Some? && lo <= hi <= |d.output.value| && hi <= |d'.output.value| &&
    d'.output.value[lo..hi] == d.output.value[lo..hi]
  }

  lemma ChunkElsewhere(cfg: Config, s: State, e: Event, i: u64, limit: nat)
    requires Counted(cfg.manifest) && Bounded(cfg, s, limit) && s.process.Receiving? && s.process.todo != []
    requires i in s.process.cp.completed && SameChunk(cfg, s.disk, s.disk, i)
    ensures var s' := ChunkStep(cfg, s, e); SameChunk(cfg, s.disk, s'.disk, i) && Holding(s'.process, i)
  {
    hide Counted, Payload, Serves, Overlay, Start, End, ByteOffset, PayloadSize, Render, Matches;
    var m, b, j := cfg.manifest, s.disk.output.value, s.process.todo[0];
    assert j in s.process.todo;
    WriteInExtent(cfg, s, e);
    ExtentsApart(m, i, j);
    var s' := ChunkStep(cfg, s, e);
    if s'.disk.output.value != b {
      var data :| |data| <= End(m, j) - Start(m, j) && s'.disk.output.value == Overlay(b, Start(m, j), data);
      OverlayElsewhere(b, Start(m, j), data, Start(m, i), End(m, i));
    }
  }

  lemma SaveElsewhere(d: Disk, p: Process, e: Event, i: u64)
    requires p.Saving? && Holding(p, i)
    ensures var (d', p') := SaveStep(d, p, e); d'.output == d.output && Holding(p', i)
  {
    hide Render;
  }

  lemma StepElsewhere(cfg: Config, s: State, e: Event, i: u64, limit: nat)
    requires Counted(cfg.manifest) && Bounded(cfg, s, limit) && e != Begin
    requires Holding(s.process, i) && SameChunk(cfg, s.disk, s.disk, i)
    ensures var s' := Step(cfg, s, e); SameChunk(cfg, s.disk, s'.disk, i) && Holding(s'.process, i)
  {
    hide Counted, Serves, Sha256Spec.Sha256Hex, Start, End, ChunkStep, SaveStep, Bounded;
    if s.process.Saving? {
      SaveElsewhere(s.disk, s.process, e, i);
    } else if s.process.Receiving? && s.process.todo != [] {
      ChunkElsewhere(cfg, s, e, i, limit);
    }
  }

  /** Once a run has recorded a chunk, its bytes stay until a new run begins, whoever sends what. */
  lemma {:induction false} RecordedChunksUntouched(cfg: Config, s: State, events: seq<Event>, i: u64, limit: nat)
    requires Counted(cfg.manifest) && Bounded(cfg, s, limit) && Begin !in events
    requires Holding(s.process, i) && SameChunk(cfg, s.disk, s.disk, i)
    ensures SameChunk(cfg, s.disk, Exec(cfg, s, events).disk, i)
    decreases |events|
  {
    hide Counted, Bounded, Step, Start, End, Holding;
    if events != [] {
      StepElsewhere(cfg, s, events[0], i, limit);
      StepStaysBounded(cfg, s, events[0], limit);
      RecordedChunksUntouched(cfg, Step(cfg, s, events[0]), events[1..], i, limit);
    }
  }

  // ---------------------------------------------------------------- saved texts

  /** The file holds the text of the checkpoint, or if not `whole`, some first part of it. */
  predicate TextOf(file: Option<string>, c: Checkpoint, whole: bool) {
    file.Some? && if whole then file.value == Render(c) else file.value <= Render(c)
  }

  /** What the program has saved, or is about to put in place, is the text of its checkpoint. */
  predicate Texts(d: Disk, p: Process, whole: bool) {
    match p
    case Saving(c, stage, _, _) => stage == Removing || stage == Renaming ==> TextOf(d.temp, c, whole)
    case Preparing(c, _, _) => TextOf(d.checkpoint, c, whole)
    case Receiving(c, _, _) => TextOf(d.checkpoint, c, whole)
    case _ => true
  }

  lemma SaveKeepsTexts(d: Disk, p: Process, e: Event, whole: bool)
    requires p.Saving? && Texts(d, p, whole) && (whole ==> !Short(e))
    ensures var (d', p') := SaveStep(d, p, e); Texts(d', p', whole)
  {
    hide Render;
  }

  lemma StepKeepsTexts(cfg: Config, s: State, e: Event, whole: bool)
    requires Texts(s.disk, s.process, whole) && (whole ==> !Short(e))
    ensures var s' := Step(cfg, s, e); Texts(s'.disk, s'.process, whole)
  {
    hide TextOf, SaveStep, Resume, Missing, Serves, Payload, PayloadSize, Overlay, ByteOffset, Sha256Spec.Sha256Hex;
    if s.process.Saving? && e != Stop {
      SaveKeepsTexts(s.disk, s.process, e, whole);
    }
  }

  lemma {:induction false} ExecKeepsTexts(cfg: Config, s: State, events: seq<Event>, whole: bool)
    requires Texts(s.disk, s.process, whole) && (whole ==> Whole(events))
    ensures var t := Exec(cfg, s, events); Texts(t.disk, t.process, whole)
    decreases |events|
  {
    hide Texts, Step, Short;
    if events != [] {
      StepKeepsTexts(cfg, s, events[0], whole);
      ExecKeepsTexts(cfg, Step(cfg, s, events[0]), events[1..], whole);
    }
  }

  // ---------------------------------------------------------------- recorded on disk

  /** The next run goes by a checkpoint that records chunk `i`, or starts afresh. */
  predicate Trusts(cfg: Config, d: Disk, i: u64) {
    Resume(cfg, d).1 || i in Resume(cfg, d).0.completed
  }

  /** No run of the history starts afresh. */
  predicate OnlyResumes(cfg: Config, s: State, events: seq<Event>)
    decreases |events|
  {
    events == [] ||
    (var s' := Step(cfg, s, events[0]);
     !(s'.process.Connected? && s'.process.afresh) && OnlyResumes(cfg, s', events[1..]))
  }

  lemma SameFilesResumed(cfg: Config, d: Disk, d': Disk)
    requires d'.checkpoint == d.checkpoint && (d'.output.Some? <==> d.output.Some?)
    ensures Resume(cfg, d') == Resume(cfg, d)
  {
    hide Load;
  }

  lemma NoCheckpointStartsAfresh(cfg: Config, d: Disk)
    requires d.checkpoint == None || d.output == None
    ensures Resume(cfg, d) == (Create(cfg.manifest), true)
  {
    hide Load;
  }

  lemma SaveTrusts(cfg: Config, d: Disk, p: Process, e: Event, i: u64)
    requires p.Saving? && ProcessBounded(cfg, d, p) && Holding(p, i) && Trusts(cfg, d, i) && d.output.Some?
    requires Texts(d, p, true)
    ensures Trusts(cfg, SaveStep(d, p, e).0, i)
  {
    hide Render, Resume, Matches, Pending;
    var d' := SaveStep(d, p, e).0;
    if p.stage == Renaming && e == RenameTemp {
      SavedIsResumed(cfg, d', p.cp);
    } else if d'.checkpoint == None {
      NoCheckpointStartsAfresh(cfg, d');
    } else {
      SameFilesResumed(cfg, d, d');
    }
  }

  lemma StepTrusts(cfg: Config, s: State, e: Event, i: u64, limit: nat)
    requires Counted(cfg.manifest) && Bounded(cfg, s, limit) && SameChunk(cfg, s.disk, s.disk, i)
    requires Holding(s.process, i) && Trusts(cfg, s.disk, i) && Texts(s.disk, s.process, true)
    requires var p' := Step(cfg, s, e).process; !(p'.Connected? && p'.afresh)
    ensures var s' := Step(cfg, s, e);
            SameChunk(cfg, s.disk, s'.disk, i) && Holding(s'.process, i) && Trusts(cfg, s'.disk, i)
  {
    hide Counted, Serves, Sha256Spec.Sha256Hex, Start, End, SaveStep, Resume, Matches, Pending, Render, Payload,
      Overlay, ByteOffset, PayloadSize;
    var s' := Step(cfg, s, e);
    if e == Begin && (s.process.Idle? || s.process.Finished?) {
      assert s' == s || s'.process.Connected?;
    } else if e != Begin {
      StepElsewhere(cfg, s, e, i, limit);
    }
    if s.process.Saving? && e != Stop {
      SaveTrusts(cfg, s.disk, s.process, e, i);
      SaveElsewhere(s.disk, s.process, e, i);
    } else if s'.disk.checkpoint == None {
      NoCheckpointStartsAfresh(cfg, s'.disk);
    } else {
      SameFilesResumed(cfg, s.disk, s'.disk);
    }
  }

  /**
   * A chunk that the checkpoint on disk records, and the output holds, keeps its bytes
   * over every history, whoever sends what, until a run starts afresh or a save is cut
   * short.
   */
  lemma {:induction false} TrustedChunksUntouched(cfg: Config, s: State, events: seq<Event>, i: u64, limit: nat)
    requires Counted(cfg.manifest) && Bounded(cfg, s, limit) && OnlyResumes(cfg, s, events)
    requires Holding(s.process, i) && Trusts(cfg, s.disk, i) && SameChunk(cfg, s.disk, s.disk, i)
    requires Texts(s.disk, s.process, true) && Whole(events)
    ensures SameChunk(cfg, s.disk, Exec(cfg, s, events).disk, i)
    decreases |events|
  {
    hide Counted, Bounded, Step, Start, End, Holding, Trusts, Texts, Short;
    if events != [] {
      StepTrusts(cfg, s, events[0], i, limit);
      StepKeepsTexts(cfg, s, events[0], true);
      StepStaysBounded(cfg, s, events[0], limit);
      TrustedChunksUntouched(cfg, Step(cfg, s, events[0]), events[1..], i, limit);
    }
  }
}
