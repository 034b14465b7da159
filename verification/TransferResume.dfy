/**
 * What the next run asks for. The documentation promises only the chunks that are
 * missing; here is exactly when the code keeps that, the two kinds of stop after which it
 * does not, and what happens after a digest mismatch.
 */
module TransferResume {
  import opened Base
  import opened Protocol
  import opened Indexes
  import opened Chunks
  import opened Checkpoint
  import opened Transfer
  import opened TransferAnySender
  import opened TransferTrust
  import opened TransferShape
  import opened TransferSafety
  import opened TransferConservation
  import opened TransferProgress
  import ManifestCodec
  import Sha256Spec

  // ---------------------------------------------------------------- when a run resumes

  /**
   * After every history that started without an output, and whose saves were not cut
   * short, the next run resumes exactly when output and checkpoint are both there
   * and the name has no newline. With a newline it never does.
   */
  lemma ResumesIff(cfg: Config, s: State, events: seq<Event>)
    requires Consistent(cfg) && Initial(s) && Genuine(events)
    ensures var d := Exec(cfg, s, events).disk;
            (!Resume(cfg, d).1 ==> d.output.Some? && d.checkpoint.Some? && '\n' !in cfg.manifest.filename) &&
            (Whole(events) && d.output.Some? && d.checkpoint.Some? && '\n' !in cfg.manifest.filename ==>
               !Resume(cfg, d).1)
  {
    hide Exec, Render, Resume, Covered, FirstChunks, Consistent, Whole, Genuine;
    ReachableShape(cfg, s, events);
    var d := Exec(cfg, s, events).disk;
    if '\n' in cfg.manifest.filename {
      NewlineStartsAfresh(cfg, d);
    } else if d.output.None? || d.checkpoint.None? {
      NoCheckpointStartsAfresh(cfg, d);
    } else if Whole(events) {
      var k :| 0 <= k <= cfg.manifest.chunkCount && Covered(cfg, k) <= |d.output.value| &&
               TextOf(d.checkpoint, FirstChunks(cfg, k), true);
      MissingAfter(cfg, k);
      SavedIsResumed(cfg, d, FirstChunks(cfg, k));
    }
  }

  /** The request lists exactly the chunks that the output does not hold. */
  predicate AsksForAbsent(cfg: Config, d: Disk, request: seq<u64>) {
    forall i: u64 :: i < cfg.manifest.chunkCount ==> (i in request <==> !Present(cfg, d, i))
  }

  /** The output ends within the first chunk of the request, or before it. */
  predicate EndsBeforeFirst(cfg: Config, d: Disk, request: seq<u64>) {
    request == [] || OutputLength(d) < End(cfg.manifest, request[0])
  }

  /** A chunk that ends within an output that is a prefix of the source is there, and no other. */
  lemma PresentIff(cfg: Config, d: Disk, i: nat)
    requires Consistent(cfg) && i < cfg.manifest.chunkCount && (d.output.Some? ==> d.output.value <= cfg.source)
    ensures Present(cfg, d, i) <==> End(cfg.manifest, i) <= OutputLength(d)
  {
    hide Planned, Covered;
    CoveredSteps(cfg, i);
  }

  lemma EndsGrow(cfg: Config, i: nat, j: nat)
    requires i <= j
    ensures End(cfg.manifest, i) <= End(cfg.manifest, j)
  {
    MulMono(i + 1, j + 1, cfg.manifest.chunkSize);
  }

  /**
   * The next run asks for exactly the chunks that the output does not hold if and only
   * if the output ends before the end of the first chunk that it asks for.
   */
  lemma AsksForAbsentIff(cfg: Config, s: State, events: seq<Event>)
    requires Consistent(cfg) && Initial(s) && Genuine(events)
    ensures var d := Exec(cfg, s, events).disk;
            var request := Missing(Resume(cfg, d).0);
            AsksForAbsent(cfg, d, request) <==> EndsBeforeFirst(cfg, d, request)
  {
    hide Exec, Render, Resume, Covered, Consistent, Missing, Present, Holds, End, DiskInv;
    ReachableShape(cfg, s, events);
    InitialIsUnmatched(cfg, s);
    ConsistentFits(cfg);
    HistoryInv(cfg, s, events, true);
    var n, d := cfg.manifest.chunkCount, Exec(cfg, s, events).disk;
    var k := ResumeRecords(cfg, d, true);
    MissingAfter(cfg, k);
    RangeMembers(k, n);
    UnmatchedIsAdmissible(cfg, s, events);
    ResumeSafety(cfg, s, events);
    if k < n {
      PresentIff(cfg, d, k);
      if OutputLength(d) < End(cfg.manifest, k) {
        forall i: u64 | k <= i < n
          ensures !Present(cfg, d, i)
        {
          PresentIff(cfg, d, i);
          EndsGrow(cfg, k, i);
        }
      } else {
        assert Present(cfg, d, k) && k in Range(k, n);
      }
    }
  }

  // ---------------------------------------------------------------- stops that cost work

  /** A stop between the removal of the old checkpoint and the renaming of the new: the next run starts afresh. */
  lemma StopBeforeRename(cfg: Config, t: State)
    requires ManifestCodec.Acceptable(cfg.manifest) && t.process.Saving? && t.process.stage == Removing
    ensures Exec(cfg, t, [RemoveOld(true), Stop, Begin]).process == Connected(Create(cfg.manifest), true)
  {
    hide Render, Resume, ManifestCodec.Acceptable;
    var t1 := Step(cfg, t, RemoveOld(true));
    var t2 := Step(cfg, t1, Stop);
    NoCheckpointStartsAfresh(cfg, t2.disk);
    ExecOne(cfg, t, RemoveOld(true), [Stop] + ([Begin] + []));
    ExecOne(cfg, t1, Stop, [Begin] + []);
    ExecOne(cfg, t2, Begin, []);
    ExecOne(cfg, Step(cfg, t2, Begin), Begin, []);
    assert [RemoveOld(true), Stop, Begin] == [RemoveOld(true)] + ([Stop] + ([Begin] + []));
  }

  /** A stop between the write of a chunk and its save: the output holds it, and the next run asks for it again. */
  lemma StopBeforeSave(cfg: Config, s: State, events: seq<Event>)
    requires Consistent(cfg) && Unmatched(cfg, s) && Genuine(events)
    requires var t := Exec(cfg, s, events);
             t.process.Receiving? && t.process.todo != [] && Serves(cfg, t.process.request)
    ensures var t := Exec(cfg, s, events);
            var d := Exec(cfg, t, [AcceptChunk, Stop]).disk;
            d.checkpoint == t.disk.checkpoint && d.checkpoint.Some? &&
            Present(cfg, d, t.process.todo[0]) && t.process.todo[0] in Missing(Resume(cfg, d).0)
  {
    hide Exec, Render, Resume, Covered, Consistent, Missing, Present, Holds, Start, End, DiskInv, Serves, Payload,
      Overlay, ByteOffset, FirstChunks, SaveStep;
    var t := Exec(cfg, s, events);
    ConsistentFits(cfg);
    HistoryInv(cfg, s, events, true);
    var k: nat :| ProcessInv(cfg, t.disk, t.process, k, true);
    NextChunk(cfg, t, k, true);
    PayloadLength(cfg, k);
    StoreKeepsSegment(cfg, t, k, Payload(cfg, k).value, true);
    var t1 := Step(cfg, t, AcceptChunk);
    var d := t1.disk;
    ExecOne(cfg, t, AcceptChunk, [Stop] + []);
    ExecOne(cfg, t1, Stop, []);
    ExecOne(cfg, Step(cfg, t1, Stop), Stop, []);
    assert [AcceptChunk, Stop] == [AcceptChunk] + ([Stop] + []);
    RecordedIsPresent(cfg, d, t1.process.cp, k + 1, k);
    var j := CutIsResumed(cfg, d, k);
    MissingAtLeast(cfg, j, k);
  }

  /** A checkpoint of the first `j` chunks asks for every later one. */
  lemma MissingAtLeast(cfg: Config, j: nat, k: nat)
    requires j <= k < cfg.manifest.chunkCount
    ensures k in Missing(FirstChunks(cfg, j))
  {
    hide Missing;
    MissingAfter(cfg, j);
    RangeMembers(j, cfg.manifest.chunkCount);
  }

  /** A first run that stops after it wrote a chunk and before it saved. */
  lemma PromiseFails(cfg: Config, s: State) returns (events: seq<Event>)
    requires Consistent(cfg) && Initial(s) && 0 < cfg.manifest.chunkCount <= MAX_CHUNK_INDEXES
    requires ManifestCodec.Acceptable(cfg.manifest)
    ensures var d := Exec(cfg, s, events).disk;
            Genuine(events) && !AsksForAbsent(cfg, d, Missing(Resume(cfg, d).0))
  {
    hide Consistent, Exec, Render, Resume, Missing, Serves, Inv, DiskInv, Present, Unmatched, ManifestCodec.Acceptable;
    var m := cfg.manifest;
    InitialIsUnmatched(cfg, s);
    AllMissing(cfg);
    ServesMissing(cfg, Create(m));
    RunOpens(cfg, s);
    var opening, t := OpeningEvents(cfg, s), Exec(cfg, s, OpeningEvents(cfg, s));
    NoCheckpointStartsAfresh(cfg, s.disk);
    ExecConcat(cfg, s, opening, [Prepare]);
    ExecOne(cfg, t, Prepare, []);
    ExecNothing(cfg, Step(cfg, t, Prepare));
    assert [Prepare] + [] == [Prepare];
    StopBeforeSave(cfg, s, opening + [Prepare]);
    events := opening + [Prepare] + [AcceptChunk, Stop];
    ExecConcat(cfg, s, opening + [Prepare], [AcceptChunk, Stop]);
  }

  /** Without chunks, or if none can arrive, there is nothing to ask for twice. */
  lemma PromiseKept(cfg: Config, s: State, events: seq<Event>)
    requires Consistent(cfg) && Initial(s) && Genuine(events)
    requires cfg.manifest.chunkCount == 0 || cfg.manifest.chunkCount > MAX_CHUNK_INDEXES ||
             !ManifestCodec.Acceptable(cfg.manifest)
    ensures var d := Exec(cfg, s, events).disk; AsksForAbsent(cfg, d, Missing(Resume(cfg, d).0))
  {
    hide Consistent, Exec, Render, Resume, Missing, AsksForAbsent, DiskInv, Holds, Covered, End,
      ManifestCodec.Acceptable;
    AsksForAbsentIff(cfg, s, events);
    InitialIsUnmatched(cfg, s);
    ConsistentFits(cfg);
    HistoryInv(cfg, s, events, true);
    var k := ResumeRecords(cfg, Exec(cfg, s, events).disk, true);
    MissingAfter(cfg, k);
    if cfg.manifest.chunkCount > 0 {
      if ManifestCodec.Acceptable(cfg.manifest) {
        UnmatchedIsStuck(cfg, s);
        StuckForever(cfg, s, s.disk.output, events, false);
      } else {
        NeverBegins(cfg, s, events);
      }
      CoveredSteps(cfg, k);
    }
  }

  /** Without an output to start from, every next run asks for exactly the absent chunks only in these cases. */
  lemma PromiseKeptIff(cfg: Config, s: State)
    requires Consistent(cfg) && Initial(s)
    ensures (forall events :: Genuine(events) ==>
               var d := Exec(cfg, s, events).disk; AsksForAbsent(cfg, d, Missing(Resume(cfg, d).0))) <==>
            cfg.manifest.chunkCount == 0 || cfg.manifest.chunkCount > MAX_CHUNK_INDEXES ||
            !ManifestCodec.Acceptable(cfg.manifest)
  {
    hide Consistent, Exec, Resume, Missing, AsksForAbsent, ManifestCodec.Acceptable;
    if cfg.manifest.chunkCount == 0 || cfg.manifest.chunkCount > MAX_CHUNK_INDEXES ||
       !ManifestCodec.Acceptable(cfg.manifest) {
      forall events | Genuine(events)
        ensures var d := Exec(cfg, s, events).disk; AsksForAbsent(cfg, d, Missing(Resume(cfg, d).0))
      {
        PromiseKept(cfg, s, events);
      }
    } else {
      var events := PromiseFails(cfg, s);
    }
  }

  // ---------------------------------------------------------------- stops that cost nothing

  /** The output is exactly as long as the chunks accepted. */
  ghost predicate Exact(cfg: Config, s: State) {
    OutputLength(s.disk) == Covered(cfg, |Accepts(s.ledger)|)
  }

  lemma StepExact(cfg: Config, s: State, e: Event)
    requires Fit(cfg, true) && LedgerInv(cfg, s) && Exact(cfg, s) && Orderly(s, e)
    ensures Exact(cfg, Step(cfg, s, e))
  {
    hide Consistent, Render, Resume, Missing, Serves, Sha256Spec.Sha256Hex, ChunkStep, Accepts, Balanced, Records,
      DiskInv, Covered;
    var k := |Accepts(s.ledger)|;
    if e == Stop {
    } else if s.process.Receiving? && s.process.todo != [] {
      ChunkExact(cfg, s, e);
    } else if s.process.Connected? {
      AcceptsAppend(s.ledger, Requested(Missing(s.process.cp)));
    } else if s.process.Preparing? && s.process.afresh {
      PreparedFromNothing(cfg, s, k);
      CoveredSteps(cfg, 0);
    }
  }

  lemma PreparedFromNothing(cfg: Config, s: State, k: nat)
    requires ProcessInv(cfg, s.disk, s.process, k, true) && s.process.Preparing? && s.process.afresh
    ensures k == 0
  {
    hide Render;
  }

  lemma ChunkExact(cfg: Config, s: State, e: Event)
    requires Fit(cfg, true) && LedgerInv(cfg, s) && Exact(cfg, s)
    requires s.process.Receiving? && s.process.todo != [] && !e.TornWrite? && !Foreign(e)
    ensures Exact(cfg, ChunkStep(cfg, s, e))
  {
    hide Consistent, Render, Resume, Serves, Payload, Overlay, ByteOffset, Accepts, Balanced, DiskInv, Covered,
      Holds, FirstChunks, Start, End;
    var k := |Accepts(s.ledger)|;
    NextChunk(cfg, s, k, true);
    CoveredSteps(cfg, k);
    if e == AcceptChunk && Serves(cfg, s.process.request) {
      PayloadLength(cfg, k);
      StoreKeepsSegment(cfg, s, k, Payload(cfg, k).value, true);
      AcceptsAppend(s.ledger, Accepted(k));
    }
  }

  lemma {:induction false} HistoryExact(cfg: Config, s: State, events: seq<Event>)
    requires Fit(cfg, true) && '\n' !in cfg.manifest.filename && LedgerInv(cfg, s) && Exact(cfg, s)
    requires OrderlyHistory(cfg, s, events)
    ensures LedgerInv(cfg, Exec(cfg, s, events)) && Exact(cfg, Exec(cfg, s, events))
    decreases |events|
  {
    hide LedgerInv, Step, Orderly, Consistent, Exact;
    if events != [] {
      StepBalances(cfg, s, events[0]);
      StepExact(cfg, s, events[0]);
      HistoryExact(cfg, Step(cfg, s, events[0]), events[1..]);
    }
  }

  /** When runs stop only because the connection is lost, the next asks for exactly the chunks that are not there. */
  lemma OrderlyAsksForAbsent(cfg: Config, s: State, events: seq<Event>)
    requires Consistent(cfg) && Initial(s) && OrderlyHistory(cfg, s, events) && '\n' !in cfg.manifest.filename
    requires Exec(cfg, s, events).process.Idle?
    ensures var d := Exec(cfg, s, events).disk; AsksForAbsent(cfg, d, Missing(Resume(cfg, d).0))
  {
    hide Consistent, Exec, Render, Resume, Missing, Accepts, Balanced, DiskInv, Covered, Present, End, OrderlyHistory;
    InitialIsUnmatched(cfg, s);
    ConsistentFits(cfg);
    InitiallyBalanced(cfg, s);
    NoAccepts(s.ledger);
    CoveredSteps(cfg, 0);
    HistoryExact(cfg, s, events);
    OrderlyIsGenuine(cfg, s, events);
    var t := Exec(cfg, s, events);
    var k := |Accepts(t.ledger)|;
    AcceptsInOrder(t.ledger, cfg.manifest.chunkCount);
    MissingAfter(cfg, k);
    if k < cfg.manifest.chunkCount {
      CoveredSteps(cfg, k);
    }
    AsksForAbsentIff(cfg, s, events);
  }

  lemma {:induction false} OrderlyIsGenuine(cfg: Config, s: State, events: seq<Event>)
    requires OrderlyHistory(cfg, s, events)
    ensures Genuine(events)
    decreases |events|
  {
    hide Step;
    if events != [] {
      OrderlyIsGenuine(cfg, Step(cfg, s, events[0]), events[1..]);
    }
  }

  // ---------------------------------------------------------------- after a digest mismatch

  /** Saves are not cut short, nor stopped between the removal of the old checkpoint and the renaming of the new. */
  predicate WholeSaves(cfg: Config, s: State, events: seq<Event>)
    decreases |events|
  {
    events == [] ||
    (!Short(events[0]) && (events[0] == Stop ==> !(s.process.Saving? && s.process.stage == Renaming)) &&
     WholeSaves(cfg, Step(cfg, s, events[0]), events[1..]))
  }

  /** All chunks are recorded, over an output that stays the same and is never verified. */
  predicate Hopeless(cfg: Config, s: State, output: Bytes) {
    var n := cfg.manifest.chunkCount;
    var full := FirstChunks(cfg, n);
    var saved := s.disk.checkpoint == Some(Render(full));
    s.disk.output == Some(output) &&
    match s.process
    case Idle => saved
    case Connected(c, afresh) => saved && c == full && !afresh
    case Saving(c, stage, after, request) =>
      c == full && after == PrepareNext(false) && request == [] && (stage != Renaming ==> saved) &&
      (stage == Removing || stage == Renaming ==> s.disk.temp == Some(Render(full)))
    case Preparing(c, afresh, request) => saved && c == full && !afresh && request == []
    case Receiving(c, todo, request) => saved && c == full && todo == request == []
    case Finished(verified) => saved && !verified
  }

  /** The ledger has grown by empty requests only. */
  predicate OnlyEmptyRequests(before: seq<Entry>, after: seq<Entry>) {
    before <= after && forall i :: |before| <= i < |after| ==> after[i] == Requested([])
  }

  lemma StepStaysHopeless(cfg: Config, s: State, e: Event, output: Bytes)
    requires '\n' !in cfg.manifest.filename && Hopeless(cfg, s, output) && !Foreign(e) && !Short(e)
    requires Sha256Spec.Sha256Hex(output) != Sha256Spec.Sha256Hex(cfg.source)
    requires e == Stop ==> !(s.process.Saving? && s.process.stage == Renaming)
    ensures Hopeless(cfg, Step(cfg, s, e), output) && OnlyEmptyRequests(s.ledger, Step(cfg, s, e).ledger)
  {
    hide Render, Resume, Missing, Serves, Sha256Spec.Sha256Hex, FirstChunks;
    var n := cfg.manifest.chunkCount;
    var full := FirstChunks(cfg, n);
    MissingAfter(cfg, n);
    if s.disk.checkpoint == Some(Render(full)) {
      SavedIsResumed(cfg, s.disk, full);
    }
  }

  lemma {:induction false} StaysHopeless(cfg: Config, s: State, events: seq<Event>, output: Bytes)
    requires '\n' !in cfg.manifest.filename && Hopeless(cfg, s, output) && Genuine(events) && WholeSaves(cfg, s, events)
    requires Sha256Spec.Sha256Hex(output) != Sha256Spec.Sha256Hex(cfg.source)
    ensures Hopeless(cfg, Exec(cfg, s, events), output) && OnlyEmptyRequests(s.ledger, Exec(cfg, s, events).ledger)
    decreases |events|
  {
    hide Hopeless, Step, Foreign, Sha256Spec.Sha256Hex;
    if events != [] {
      var s' := Step(cfg, s, events[0]);
      StepStaysHopeless(cfg, s, events[0], output);
      StaysHopeless(cfg, s', events[1..], output);
    }
  }

  /** After a mismatch the checkpoint on disk records all chunks. */
  predicate KeptFull(cfg: Config, s: State) {
    s.process == Finished(false) ==>
      s.disk.output.Some? && s.disk.checkpoint == Some(Render(FirstChunks(cfg, cfg.manifest.chunkCount)))
  }

  lemma StepKeptFull(cfg: Config, s: State, e: Event, limit: nat)
    requires Bounded(cfg, s, limit) && Texts(s.disk, s.process, true) && KeptFull(cfg, s)
    ensures KeptFull(cfg, Step(cfg, s, e))
  {
    hide Render, Resume, Missing, SaveStep, ChunkStep, Serves, Sha256Spec.Sha256Hex;
    if s.process.Receiving? && s.process.todo == [] {
      assert s.process.cp.completed == Below(cfg.manifest.chunkCount);
    } else if s.process.Saving? && e != Stop {
      SaveStaysActive(s.disk, s.process, e);
    } else if s.process.Receiving? && e != Stop {
      ChunkStaysReceiving(cfg, s, e);
    }
  }

  lemma {:induction false} ExecKeptFull(cfg: Config, s: State, events: seq<Event>, limit: nat)
    requires Counted(cfg.manifest) && Settled(cfg, s, limit, true) && KeptFull(cfg, s) && Whole(events)
    ensures KeptFull(cfg, Exec(cfg, s, events))
    decreases |events|
  {
    hide Counted, Bounded, Texts, KeptFull, Step, Short;
    if events != [] {
      StepKeptFull(cfg, s, events[0], limit);
      StepStaysBounded(cfg, s, events[0], limit);
      StepKeepsTexts(cfg, s, events[0], true);
      ExecKeptFull(cfg, Step(cfg, s, events[0]), events[1..], limit);
    }
  }

  /**
   * A digest mismatch is for good, whoever sent the bytes and whatever source is sent
   * later under the same manifest: after any history of `cfg` that ends in a mismatch, a
   * sender of another source with a digest different from the output's is asked for
   * nothing by every later run, never changes the output and is never verified, unless
   * a save is cut short or stopped between its removal and its renaming.
   */
  lemma MismatchRepeats(cfg: Config, s: State, events: seq<Event>, source: Bytes, later: seq<Event>)
    requires Counted(cfg.manifest) && s.process == Idle && '\n' !in cfg.manifest.filename
    requires Whole(events) && Genuine(later)
    requires var t := Exec(cfg, s, events);
             t.process == Finished(false) &&
             (t.disk.output.Some? ==> Sha256Spec.Sha256Hex(t.disk.output.value) != Sha256Spec.Sha256Hex(source))
    requires WholeSaves(cfg.(source := source), Exec(cfg, s, events), later)
    ensures var t := Exec(cfg, s, events);
            var u := Exec(cfg.(source := source), t, later);
            t.disk.output.Some? && u.disk.output == t.disk.output && u.process != Finished(true) &&
            OnlyEmptyRequests(t.ledger, u.ledger)
  {
    hide Exec, Counted, Render, Sha256Spec.Sha256Hex, WholeSaves, Whole, Genuine;
    ExecKeptFull(cfg, s, events, Reach(cfg, s));
    var t := Exec(cfg, s, events);
    StaysHopeless(cfg.(source := source), t, later, t.disk.output.value);
  }
}
