/**
 * When a transfer can complete: one undisturbed run finishes it, unless the sender
 * refuses the request. And when what completes is the source: unless an older output
 * that is longer than the file is resumed instead of truncated.
 */
module TransferProgress {
  import opened Base
  import opened Protocol
  import opened Indexes
  import opened Chunks
  import opened Checkpoint
  import opened Transfer
  import opened TransferAnySender
  import opened TransferTrust
  import opened TransferShape
  import opened TransferSafety
  import ContinuationCodec
  import ManifestCodec
  import Sha256Spec

  // ---------------------------------------------------------------- the sender's limit

  /** The sender serves what a checkpoint asks for exactly when that is not longer than the limit. */
  lemma ServesMissing(cfg: Config, c: Checkpoint)
    requires Matches(c, cfg.manifest)
    ensures Serves(cfg, Missing(c)) <==> |Missing(c)| <= MAX_CHUNK_INDEXES
  {
    hide ContinuationCodec.Encode, ContinuationCodec.Decode, Missing, Matches;
    var r := Request(cfg.manifest, c);
    RequestIsValid(cfg.manifest, c);
    ContinuationCodec.Bijection(r, ContinuationCodec.Encode(r));
    if |r.missing| > MAX_CHUNK_INDEXES {
      ContinuationCodec.OversizeRefused(r);
    }
  }

  // ---------------------------------------------------------------- an undisturbed run

  function SaveEvents(c: Checkpoint): seq<Event> {
    [OpenTemp, WriteTemp(|Render(c)|), RemoveOld(true), RenameTemp]
  }

  lemma SaveRuns(cfg: Config, s: State)
    requires s.process.Saving? && s.process.stage == Opening
    ensures var p := s.process;
            Exec(cfg, s, SaveEvents(p.cp)) ==
            State(s.disk.(checkpoint := Some(Render(p.cp)), temp := None),
                  AfterSave(p.cp, p.after, p.request), s.ledger)
  {
    hide Render;
    var c, p := s.process.cp, s.process;
    var s1 := State(s.disk.(temp := Some("")), p.(stage := Writing), s.ledger);
    var s2 := State(s.disk.(temp := Some(Render(c))), p.(stage := Removing), s.ledger);
    var s3 := State(s2.disk.(checkpoint := None), p.(stage := Renaming), s.ledger);
    var s4 := State(s.disk.(checkpoint := Some(Render(c)), temp := None), AfterSave(c, p.after, p.request), s.ledger);
    var e1, e2, e3, e4 := OpenTemp, WriteTemp(|Render(c)|), RemoveOld(true), RenameTemp;
    ExecOne(cfg, s, e1, [e2] + ([e3] + ([e4] + [])));
    ExecOne(cfg, s1, e2, [e3] + ([e4] + []));
    ExecOne(cfg, s2, e3, [e4] + []);
    ExecOne(cfg, s3, e4, []);
    ExecOne(cfg, s4, e4, []);
    assert SaveEvents(c) == [e1] + ([e2] + ([e3] + ([e4] + [])));
  }

  /** The chunks of `todo`, each written and saved, after those that `c` records. */
  function ChunkEvents(c: Checkpoint, todo: seq<u64>): seq<Event>
    decreases |todo|
  {
    if todo == [] then []
    else
      var c' := c.(completed := c.completed + {todo[0]});
      [AcceptChunk] + SaveEvents(c') + ChunkEvents(c', todo[1..])
  }

  lemma {:induction false} ChunkEventsGenuine(c: Checkpoint, todo: seq<u64>)
    ensures Genuine(ChunkEvents(c, todo)) && Whole(ChunkEvents(c, todo))
    decreases |todo|
  {
    hide Render;
    if todo != [] {
      ChunkEventsGenuine(c.(completed := c.completed + {todo[0]}), todo[1..]);
    }
  }

  lemma ExecNothing(cfg: Config, s: State)
    ensures Exec(cfg, s, []) == s
  {
  }

  /** Receiving and saving one chunk. */
  lemma OneChunkRuns(cfg: Config, s: State, limit: nat) returns (s': State)
    requires Consistent(cfg) && Bounded(cfg, s, limit)
    requires s.process.Receiving? && s.process.todo != [] && Serves(cfg, s.process.request)
    ensures var p := s.process;
            var c := p.cp.(completed := p.cp.completed + {p.todo[0]});
            s' == Exec(cfg, s, [AcceptChunk] + SaveEvents(c)) && s'.process == Receiving(c, p.todo[1..], p.request)
    ensures Bounded(cfg, s', limit) && OutputLength(s.disk) <= OutputLength(s'.disk)
  {
    hide Serves, Consistent, Counted, Render, Exec, Payload, Pending, Matches, Overlay, ByteOffset, SaveStep;
    var p, i := s.process, s.process.todo[0];
    SourceLength(cfg);
    FirstIsChunk(cfg, p.cp, p.todo);
    PayloadIsSlice(cfg, i);
    var s1 := StoreStep(cfg, s, Payload(cfg, i).value);
    assert Step(cfg, s, AcceptChunk) == s1;
    OverlayGrows(s.disk.output.value, ByteOffset(cfg.manifest, i), Payload(cfg, i).value);
    ExecOne(cfg, s, AcceptChunk, SaveEvents(s1.process.cp));
    SaveRuns(cfg, s1);
    s' := Exec(cfg, s1, SaveEvents(s1.process.cp));
    StepStaysBounded(cfg, s, AcceptChunk, limit);
    AnySenderStaysInFile(cfg, s1, SaveEvents(s1.process.cp), limit);
  }

  lemma FirstIsChunk(cfg: Config, c: Checkpoint, todo: seq<u64>)
    requires Pending(cfg, c, todo) && todo != []
    ensures todo[0] < cfg.manifest.chunkCount
  {
    assert todo[0] in todo;
  }

  lemma OverlayGrows(b: Bytes, offset: nat, data: Bytes)
    ensures |b| <= |Overlay(b, offset, data)|
  {
  }

  /** All chunks asked for arrive, and the output does not get shorter. */
  lemma {:induction false} ChunksRun(cfg: Config, s: State, limit: nat)
    requires Consistent(cfg) && Bounded(cfg, s, limit) && s.process.Receiving? && Serves(cfg, s.process.request)
    ensures var t := Exec(cfg, s, ChunkEvents(s.process.cp, s.process.todo));
            AtComparison(t) && t.process.request == s.process.request && Bounded(cfg, t, limit) &&
            OutputLength(s.disk) <= OutputLength(t.disk)
    decreases |s.process.todo|
  {
    hide Serves, Consistent, Exec, Bounded, SaveEvents;
    var c, todo := s.process.cp, s.process.todo;
    if todo == [] {
      ExecNothing(cfg, s);
    } else {
      var s' := OneChunkRuns(cfg, s, limit);
      ChunksRun(cfg, s', limit);
      var c' := c.(completed := c.completed + {todo[0]});
      ExecConcat(cfg, s, [AcceptChunk] + SaveEvents(c'), ChunkEvents(c', todo[1..]));
    }
  }

  /** The events up to the end of the first save. */
  function OpeningEvents(cfg: Config, s: State): seq<Event> {
    [Begin, SendRequest] + SaveEvents(Resume(cfg, s.disk).0)
  }

  predicate Stopped(s: State) {
    s.process.Idle? || s.process.Finished?
  }

  /** Without a manifest that can arrive no run ever begins. */
  lemma {:induction false} NeverBegins(cfg: Config, s: State, events: seq<Event>)
    requires s.process.Idle? && !ManifestCodec.Acceptable(cfg.manifest)
    ensures Exec(cfg, s, events) == s
    decreases |events|
  {
    hide ManifestCodec.Acceptable;
    if events != [] {
      NeverBegins(cfg, s, events[1..]);
    }
  }

  /** A run begins and asks for what is missing. */
  lemma RunBegins(cfg: Config, s: State)
    requires Stopped(s) && ManifestCodec.Acceptable(cfg.manifest)
    ensures var (c, afresh) := Resume(cfg, s.disk);
            Exec(cfg, s, [Begin, SendRequest]) ==
            State(s.disk, Saving(c, Opening, PrepareNext(afresh), Missing(c)), s.ledger + [Requested(Missing(c))])
  {
    hide Exec, Missing, Resume, SaveStep, ManifestCodec.Acceptable;
    var s1 := Step(cfg, s, Begin);
    ExecOne(cfg, s, Begin, [SendRequest] + []);
    ExecOne(cfg, s1, SendRequest, []);
    ExecNothing(cfg, Step(cfg, s1, SendRequest));
    assert [Begin, SendRequest] == [Begin] + ([SendRequest] + []);
  }

  /** A run begins and saves the checkpoint that it goes by. */
  lemma RunOpens(cfg: Config, s: State)
    requires Stopped(s) && ManifestCodec.Acceptable(cfg.manifest)
    ensures var (c, afresh) := Resume(cfg, s.disk);
            var t := Exec(cfg, s, OpeningEvents(cfg, s));
            t.process == Preparing(c, afresh, Missing(c)) && t.disk.output == s.disk.output &&
            t.disk.checkpoint == Some(Render(c))
  {
    hide Render, Exec, Missing, Resume, Step, ManifestCodec.Acceptable;
    var c := Resume(cfg, s.disk).0;
    RunBegins(cfg, s);
    SaveRuns(cfg, Exec(cfg, s, [Begin, SendRequest]));
    ExecConcat(cfg, s, [Begin, SendRequest], SaveEvents(c));
  }

  /**
   * From any stopped state one undisturbed run receives everything, if the sender accepts
   * what is missing. It truncates the output only if it starts afresh.
   */
  lemma OneRunReceives(cfg: Config, s: State, limit: nat) returns (events: seq<Event>)
    requires Consistent(cfg) && ManifestCodec.Acceptable(cfg.manifest) && Bounded(cfg, s, limit) && Stopped(s)
    requires |Missing(Resume(cfg, s.disk).0)| <= MAX_CHUNK_INDEXES
    ensures var t, afresh := Exec(cfg, s, events), Resume(cfg, s.disk).1;
            Genuine(events) && Whole(events) && AtComparison(t) && Serves(cfg, t.process.request) &&
            (!afresh ==> OutputLength(s.disk) <= OutputLength(t.disk)) &&
            (afresh || OutputLength(s.disk) <= cfg.manifest.fileSize ==> OutputLength(t.disk) <= cfg.manifest.fileSize)
  {
    hide Serves, Consistent, Counted, Render, Exec, Missing, Resume, Matches, Pending, ManifestCodec.Acceptable;
    var (c, afresh) := Resume(cfg, s.disk);
    SourceLength(cfg);
    ResumeMatches(cfg, s.disk);
    ResumeNeedsOutput(cfg, s.disk);
    ServesMissing(cfg, c);
    RunOpens(cfg, s);
    var opening, tail := OpeningEvents(cfg, s), ChunkEvents(c, Missing(c));
    var s3 := Exec(cfg, s, opening);
    AnySenderStaysInFile(cfg, s, opening, limit);
    var s4 := Step(cfg, s3, Prepare);
    ChunksRun(cfg, s4, Reach(cfg, s4));
    ChunkEventsGenuine(c, Missing(c));
    events := opening + ([Prepare] + tail);
    ExecConcat(cfg, s, opening, [Prepare] + tail);
    ExecOne(cfg, s3, Prepare, tail);
  }

  /** A finished transfer: the source delivered, verified, and no checkpoint left. */
  predicate Complete(cfg: Config, s: State) {
    s.process == Finished(true) && s.disk.output == Some(cfg.source) && s.disk.checkpoint == None
  }

  /**
   * From any stopped state whose trusted chunks are there, one undisturbed run completes
   * the transfer, if the sender accepts what is missing and the run starts afresh or finds an
   * output that is not longer than the file.
   */
  lemma OneRunCompletes(cfg: Config, s: State, limit: nat) returns (events: seq<Event>)
    requires Consistent(cfg) && ManifestCodec.Acceptable(cfg.manifest)
    requires Bounded(cfg, s, limit) && Sound(cfg, s) && Stopped(s)
    requires |Missing(Resume(cfg, s.disk).0)| <= MAX_CHUNK_INDEXES
    requires Resume(cfg, s.disk).1 || OutputLength(s.disk) <= cfg.manifest.fileSize
    ensures Genuine(events) && Whole(events) && Complete(cfg, Exec(cfg, s, events))
  {
    hide Serves, Consistent, Counted, Sha256Spec.Sha256Hex, Exec, Missing, Resume, Bounded, Sound,
      ManifestCodec.Acceptable;
    var before := OneRunReceives(cfg, s, limit);
    var t := Exec(cfg, s, before);
    SourceLength(cfg);
    ExecKeeps(cfg, s, before, limit, true);
    AnySenderStaysInFile(cfg, s, before, limit);
    NothingMissing(cfg, t, limit);
    SameLength(cfg.source, t.disk.output.value);
    events := before + [CompareDigest(true)];
    ExecConcat(cfg, s, before, [CompareDigest(true)]);
    ExecOne(cfg, t, CompareDigest(true), []);
    ExecNothing(cfg, Step(cfg, t, CompareDigest(true)));
    assert [CompareDigest(true)] + [] == [CompareDigest(true)];
  }

  /**
   * A run that stops after it removed the old checkpoint makes the next one start afresh.
   * So whatever the files hold, a transfer that the sender serves from nothing can complete.
   */
  lemma AfreshCompletes(cfg: Config, s: State) returns (events: seq<Event>)
    requires Consistent(cfg) && ManifestCodec.Acceptable(cfg.manifest) && s.process.Idle?
    requires cfg.manifest.chunkCount <= MAX_CHUNK_INDEXES
    ensures Genuine(events) && Whole(events) && Complete(cfg, Exec(cfg, s, events))
  {
    hide Consistent, Exec, Render, Resume, Missing, ManifestCodec.Acceptable, Present;
    var c := Resume(cfg, s.disk).0;
    var first := [Begin, SendRequest, OpenTemp, WriteTemp(|Render(c)|), RemoveOld(true), Stop];
    var t := RemovedThenStopped(cfg, s);
    NoCheckpointStartsAfresh(cfg, t.disk);
    AllMissing(cfg);
    var second := OneRunCompletes(cfg, t, Reach(cfg, t));
    events := first + second;
    ExecConcat(cfg, s, first, second);
  }

  lemma RemovedThenStopped(cfg: Config, s: State) returns (t: State)
    requires ManifestCodec.Acceptable(cfg.manifest) && s.process.Idle?
    ensures var c := Resume(cfg, s.disk).0;
            t == Exec(cfg, s, [Begin, SendRequest, OpenTemp, WriteTemp(|Render(c)|), RemoveOld(true), Stop])
    ensures t.process.Idle? && t.disk.checkpoint == None
  {
    hide Exec, Render, Resume, Missing, Step, ManifestCodec.Acceptable;
    var c := Resume(cfg, s.disk).0;
    var head, tail := [Begin, SendRequest], [OpenTemp, WriteTemp(|Render(c)|), RemoveOld(true), Stop];
    RunBegins(cfg, s);
    t := SaveStops(cfg, Exec(cfg, s, head));
    ExecConcat(cfg, s, head, tail);
    assert head + tail == [Begin, SendRequest, OpenTemp, WriteTemp(|Render(c)|), RemoveOld(true), Stop];
  }

  lemma SaveStops(cfg: Config, s: State) returns (t: State)
    requires s.process.Saving? && s.process.stage == Opening
    ensures t == Exec(cfg, s, [OpenTemp, WriteTemp(|Render(s.process.cp)|), RemoveOld(true), Stop])
    ensures t.process.Idle? && t.disk.checkpoint == None
  {
    hide Exec, Render;
    var e2 := WriteTemp(|Render(s.process.cp)|);
    var s1 := Step(cfg, s, OpenTemp);
    var s2 := Step(cfg, s1, e2);
    var s3 := Step(cfg, s2, RemoveOld(true));
    t := Step(cfg, s3, Stop);
    ExecOne(cfg, s, OpenTemp, [e2] + ([RemoveOld(true)] + ([Stop] + [])));
    ExecOne(cfg, s1, e2, [RemoveOld(true)] + ([Stop] + []));
    ExecOne(cfg, s2, RemoveOld(true), [Stop] + []);
    ExecOne(cfg, s3, Stop, []);
    ExecNothing(cfg, t);
    assert [OpenTemp, e2, RemoveOld(true), Stop] == [OpenTemp] + ([e2] + ([RemoveOld(true)] + ([Stop] + [])));
  }

  // ---------------------------------------------------------------- too many chunks

  /** What the checkpoint asks for is more than the sender serves; if saves may be cut short, it records nothing. */
  predicate Refused(cfg: Config, c: Checkpoint, whole: bool) {
    Matches(c, cfg.manifest) && |Missing(c)| > MAX_CHUNK_INDEXES && (!whole ==> c == Create(cfg.manifest))
  }

  /** The states of a transfer whose requests are all refused: nothing is ever written or recorded. */
  predicate Stuck(cfg: Config, s: State, output: Option<Bytes>, whole: bool) {
    (s.disk.output == output || s.disk.output == Some([])) && Refused(cfg, Resume(cfg, s.disk).0, whole) &&
    Texts(s.disk, s.process, whole) &&
    match s.process
    case Idle => true
    case Connected(c, _) => Refused(cfg, c, whole)
    case Saving(c, _, after, request) => Refused(cfg, c, whole) && after.PrepareNext? && request == Missing(c)
    case Preparing(c, _, request) => Refused(cfg, c, whole) && request == Missing(c)
    case Receiving(c, todo, request) => Refused(cfg, c, whole) && todo == request == Missing(c)
    case Finished(_) => false
  }

  lemma AllMissing(cfg: Config)
    ensures Missing(Create(cfg.manifest)) == Range(0, cfg.manifest.chunkCount)
    ensures Matches(Create(cfg.manifest), cfg.manifest)
  {
    hide Missing;
    MissingAfter(cfg, 0);
    assert Below(0) == {};
  }

  /** If a checkpoint asks for too much, so does a new one. */
  lemma NewIsRefused(cfg: Config, c: Checkpoint, whole: bool)
    requires Refused(cfg, c, whole)
    ensures Refused(cfg, Create(cfg.manifest), whole)
  {
    hide Missing;
    AllMissing(cfg);
    RequestIsValid(cfg.manifest, c);
    ContinuationCodec.AlreadyPresentFits(cfg.manifest, Request(cfg.manifest, c));
  }

  /** Files that hold the text of a refused checkpoint, or none, lead to a refused checkpoint. */
  lemma RefusedIsResumed(cfg: Config, d: Disk, c: Checkpoint, whole: bool)
    requires Refused(cfg, c, whole)
    requires d.checkpoint == None || d.output == None || TextOf(d.checkpoint, c, whole)
    ensures Refused(cfg, Resume(cfg, d).0, whole)
  {
    hide Render, Load, Resume, Missing;
    NewIsRefused(cfg, c, whole);
    if d.checkpoint == None || d.output == None {
      NoCheckpointStartsAfresh(cfg, d);
    } else if whole {
      SavedIsResumed(cfg, d, c);
    } else {
      assert Below(0) == {};
      var j := CutIsResumed(cfg, d, 0);
    }
  }

  lemma SaveStaysStuck(cfg: Config, s: State, output: Option<Bytes>, e: Event, whole: bool)
    requires Stuck(cfg, s, output, whole) && s.process.Saving? && e != Stop && (whole ==> !Short(e))
    ensures Stuck(cfg, Step(cfg, s, e), output, whole)
  {
    hide Render, Resume, Refused, Missing;
    StepKeepsTexts(cfg, s, e, whole);
    var d' := SaveStep(s.disk, s.process, e).0;
    if d'.checkpoint != s.disk.checkpoint {
      RefusedIsResumed(cfg, d', s.process.cp, whole);
    } else {
      SameFilesResumed(cfg, s.disk, d');
    }
  }

  lemma RefusedIsNotServed(cfg: Config, c: Checkpoint, whole: bool)
    requires Refused(cfg, c, whole)
    ensures !Serves(cfg, Missing(c)) && Missing(c) != []
  {
    hide Serves, Missing;
    ServesMissing(cfg, c);
  }

  lemma StuckStays(cfg: Config, s: State, output: Option<Bytes>, e: Event, whole: bool)
    requires Stuck(cfg, s, output, whole) && !Foreign(e) && (whole ==> !Short(e))
    ensures Stuck(cfg, Step(cfg, s, e), output, whole)
  {
    hide Serves, Missing, Resume, SaveStep, StoreStep, TornStep, CompareStep, Refused, TextOf, ManifestCodec.Acceptable;
    StepKeepsTexts(cfg, s, e, whole);
    if s.process.Saving? && e != Stop {
      SaveStaysStuck(cfg, s, output, e, whole);
    } else if s.process.Preparing? {
      RefusedIsResumed(cfg, Step(cfg, s, e).disk, s.process.cp, whole);
    } else if s.process.Receiving? {
      RefusedIsNotServed(cfg, s.process.cp, whole);
    }
  }

  lemma {:induction false} StuckForever(cfg: Config, s: State, output: Option<Bytes>, events: seq<Event>, whole: bool)
    requires Stuck(cfg, s, output, whole) && Genuine(events) && (whole ==> Whole(events))
    ensures Stuck(cfg, Exec(cfg, s, events), output, whole)
    decreases |events|
  {
    hide Stuck, Step, Foreign, Short;
    if events != [] {
      StuckStays(cfg, s, output, events[0], whole);
      StuckForever(cfg, Step(cfg, s, events[0]), output, events[1..], whole);
    }
  }

  lemma UnmatchedIsStuck(cfg: Config, s: State)
    requires Unmatched(cfg, s) && cfg.manifest.chunkCount > MAX_CHUNK_INDEXES
    ensures Stuck(cfg, s, s.disk.output, false)
  {
    hide Missing, Resume;
    NewWhenUnmatched(cfg, s);
    AllMissing(cfg);
  }

  lemma NewWhenUnmatched(cfg: Config, s: State)
    requires Unmatched(cfg, s)
    ensures Resume(cfg, s.disk).0 == Create(cfg.manifest)
  {
    hide Load;
  }

  /**
   * Whatever output is there, some history completes the transfer exactly when the
   * manifest can arrive and the file has at most a million chunks. Beyond that every
   * run asks for all of them, the sender refuses, and no history ever writes a byte.
   */
  lemma CompletionIff(cfg: Config, s: State)
    requires Consistent(cfg) && Unmatched(cfg, s)
    ensures (exists events :: Genuine(events) && Complete(cfg, Exec(cfg, s, events))) <==>
            ManifestCodec.Acceptable(cfg.manifest) && cfg.manifest.chunkCount <= MAX_CHUNK_INDEXES
    ensures cfg.manifest.chunkCount > MAX_CHUNK_INDEXES ==>
              forall events :: Genuine(events) ==>
                var d := Exec(cfg, s, events).disk; d.output == s.disk.output || d.output == Some([])
  {
    hide Consistent, Exec, Resume, Genuine, ManifestCodec.Acceptable;
    if cfg.manifest.chunkCount > MAX_CHUNK_INDEXES {
      UnmatchedIsStuck(cfg, s);
      forall events | Genuine(events)
        ensures Stuck(cfg, Exec(cfg, s, events), s.disk.output, false)
      {
        StuckForever(cfg, s, s.disk.output, events, false);
      }
    } else if ManifestCodec.Acceptable(cfg.manifest) {
      var events := AfreshCompletes(cfg, s);
    } else {
      forall events
        ensures Exec(cfg, s, events) == s
      {
        NeverBegins(cfg, s, events);
      }
    }
  }

  // ---------------------------------------------------------------- completing from a checkpoint

  /**
   * An output that is too long, with more chunks than the sender serves at once: it is
   * truncated only by a run that starts afresh, and such a run is refused.
   */
  predicate TooLong(cfg: Config, s: State) {
    !Fits(cfg, s.disk) &&
    match s.process
    case Connected(c, afresh) => afresh ==> c == Create(cfg.manifest)
    case Saving(c, _, after, request) =>
      after == PrepareNext(true) ==> c == Create(cfg.manifest) && request == Missing(c)
    case Preparing(c, afresh, request) => afresh ==> c == Create(cfg.manifest) && request == Missing(c)
    case _ => true
  }

  lemma SaveStaysTooLong(cfg: Config, s: State, e: Event)
    requires TooLong(cfg, s) && s.process.Saving? && e != Stop
    ensures TooLong(cfg, Step(cfg, s, e))
  {
    hide Render, Missing;
  }

  lemma ChunkStaysTooLong(cfg: Config, s: State, e: Event)
    requires TooLong(cfg, s) && s.process.Receiving? && s.process.todo != [] && s.disk.output.Some?
    ensures TooLong(cfg, ChunkStep(cfg, s, e))
  {
    hide Overlay, ByteOffset, Payload, PayloadSize, Serves, Missing;
    var b, offset := s.disk.output.value, ByteOffset(cfg.manifest, s.process.todo[0]);
    assert forall data :: |b| <= |Overlay(b, offset, data)| by {
      forall data
        ensures |b| <= |Overlay(b, offset, data)|
      {
        OverlayGrows(b, offset, data);
      }
    }
  }

  lemma ResumeAfresh(cfg: Config, d: Disk)
    ensures Resume(cfg, d).1 ==> Resume(cfg, d).0 == Create(cfg.manifest)
  {
    hide Load;
  }

  lemma TooLongStays(cfg: Config, s: State, e: Event)
    requires TooLong(cfg, s) && Texts(s.disk, s.process, true) && Refused(cfg, Create(cfg.manifest), true)
    ensures TooLong(cfg, Step(cfg, s, e)) || Stuck(cfg, Step(cfg, s, e), None, true)
  {
    hide Render, Resume, Missing, Refused, SaveStep, ChunkStep, Sha256Spec.Sha256Hex, Serves, ManifestCodec.Acceptable;
    ResumeAfresh(cfg, s.disk);
    if e != Stop {
      if s.process.Saving? {
        SaveStaysTooLong(cfg, s, e);
      } else if s.process.Receiving? && s.process.todo != [] && s.disk.output.Some? {
        ChunkStaysTooLong(cfg, s, e);
      } else if s.process.Preparing? && s.process.afresh {
        RefusedIsResumed(cfg, Step(cfg, s, e).disk, s.process.cp, true);
      }
    }
  }

  lemma {:induction false} TooLongForever(cfg: Config, s: State, events: seq<Event>)
    requires TooLong(cfg, s) || Stuck(cfg, s, None, true)
    requires Texts(s.disk, s.process, true) && Refused(cfg, Create(cfg.manifest), true)
    requires Genuine(events) && Whole(events)
    ensures TooLong(cfg, Exec(cfg, s, events)) || Stuck(cfg, Exec(cfg, s, events), None, true)
    decreases |events|
  {
    hide TooLong, Stuck, Step, Foreign, Short, Refused, Texts;
    if events != [] {
      if TooLong(cfg, s) {
        TooLongStays(cfg, s, events[0]);
      } else {
        StuckStays(cfg, s, None, events[0], true);
      }
      StepKeepsTexts(cfg, s, events[0], true);
      TooLongForever(cfg, Step(cfg, s, events[0]), events[1..]);
    }
  }

  /** A transfer that can only be resumed cannot complete if its request is refused or its output is too long. */
  lemma NeverCompletes(cfg: Config, s: State, events: seq<Event>)
    requires Consistent(cfg) && s.process == Idle && Genuine(events) && Whole(events)
    requires cfg.manifest.chunkCount > MAX_CHUNK_INDEXES
    requires |Missing(Resume(cfg, s.disk).0)| > MAX_CHUNK_INDEXES || !Fits(cfg, s.disk)
    ensures !Complete(cfg, Exec(cfg, s, events))
  {
    hide Consistent, Exec, Resume, Missing, Genuine, Whole;
    SourceLength(cfg);
    AllMissing(cfg);
    ResumeMatches(cfg, s.disk);
    if |Missing(Resume(cfg, s.disk).0)| > MAX_CHUNK_INDEXES {
      StuckForever(cfg, s, s.disk.output, events, true);
    } else {
      TooLongForever(cfg, s, events);
    }
  }

  /**
   * From files whose trusted chunks are there, some history completes the transfer exactly
   * when the manifest can arrive and the sender serves all chunks, or serves the
   * missing ones and the output to resume is not longer than the file.
   */
  lemma TrustedCompletionIff(cfg: Config, s: State)
    requires Consistent(cfg) && Trustworthy(cfg, s)
    ensures (exists events :: Genuine(events) && Whole(events) && Complete(cfg, Exec(cfg, s, events))) <==>
            ManifestCodec.Acceptable(cfg.manifest) &&
            (cfg.manifest.chunkCount <= MAX_CHUNK_INDEXES ||
             (|Missing(Resume(cfg, s.disk).0)| <= MAX_CHUNK_INDEXES && OutputLength(s.disk) <= cfg.manifest.fileSize))
  {
    hide Consistent, Exec, Resume, Genuine, Whole, Missing, Present, ManifestCodec.Acceptable;
    if !ManifestCodec.Acceptable(cfg.manifest) {
      forall events
        ensures Exec(cfg, s, events) == s
      {
        NeverBegins(cfg, s, events);
      }
    } else if cfg.manifest.chunkCount <= MAX_CHUNK_INDEXES {
      var events := AfreshCompletes(cfg, s);
    } else if |Missing(Resume(cfg, s.disk).0)| <= MAX_CHUNK_INDEXES && Fits(cfg, s.disk) {
      var events := OneRunCompletes(cfg, s, Reach(cfg, s));
    } else {
      forall events | Genuine(events) && Whole(events)
        ensures !Complete(cfg, Exec(cfg, s, events))
      {
        NeverCompletes(cfg, s, events);
      }
    }
  }

  // ---------------------------------------------------------------- an older, longer output

  /** With a name whose checkpoint does not load, every run starts afresh, so what is received is never too long. */
  predicate AlwaysAfresh(cfg: Config, s: State) {
    match s.process
    case Connected(_, afresh) => afresh
    case Saving(_, _, after, _) => after == PrepareNext(true) || (after.ReceiveNext? && Fits(cfg, s.disk))
    case Preparing(_, afresh, _) => afresh
    case Receiving(_, _, _) => Fits(cfg, s.disk)
    case _ => true
  }

  predicate Fits(cfg: Config, d: Disk) {
    OutputLength(d) <= cfg.manifest.fileSize
  }

  lemma NewlineStartsAfresh(cfg: Config, d: Disk)
    requires '\n' in cfg.manifest.filename
    ensures Resume(cfg, d) == (Create(cfg.manifest), true)
  {
    hide Load;
    if d.checkpoint.Some? {
      LoadHasNoNewline(d.checkpoint.value);
    }
  }

  lemma StepStaysAfresh(cfg: Config, s: State, e: Event, limit: nat)
    requires Counted(cfg.manifest) && '\n' in cfg.manifest.filename && Bounded(cfg, s, limit) && AlwaysAfresh(cfg, s)
    ensures AlwaysAfresh(cfg, Step(cfg, s, e))
  {
    hide Counted, Render, Resume, Missing, ChunkStep, DigestStep, Matches, Pending;
    NewlineStartsAfresh(cfg, s.disk);
    if s.process.Receiving? && s.process.todo != [] && e != Stop {
      ChunkStaysBounded(cfg, s, e, cfg.manifest.fileSize);
      ChunkStaysReceiving(cfg, s, e);
    } else if s.process.Receiving? && e != Stop {
      DigestEndsRun(cfg, s, e);
    }
  }

  lemma DigestEndsRun(cfg: Config, s: State, e: Event)
    requires s.process.Receiving? && s.disk.output.Some?
    ensures var s' := DigestStep(cfg, s, e); s' == s || s'.process.Finished?
  {
    hide Serves, Sha256Spec.Sha256Hex;
  }

  lemma ChunkStaysReceiving(cfg: Config, s: State, e: Event)
    requires s.process.Receiving? && s.process.todo != [] && s.disk.output.Some?
    ensures var p := ChunkStep(cfg, s, e).process; p.Idle? || p.Receiving? || (p.Saving? && p.after.ReceiveNext?)
  {
    hide Serves, Payload, Overlay, ByteOffset, PayloadSize;
  }

  lemma {:induction false} RunsStayAfresh(cfg: Config, s: State, events: seq<Event>, limit: nat)
    requires Counted(cfg.manifest) && '\n' in cfg.manifest.filename && Bounded(cfg, s, limit) && AlwaysAfresh(cfg, s)
    ensures AlwaysAfresh(cfg, Exec(cfg, s, events))
    decreases |events|
  {
    hide Counted, Bounded, AlwaysAfresh, Step;
    if events != [] {
      StepStaysBounded(cfg, s, events[0], limit);
      StepStaysAfresh(cfg, s, events[0], limit);
      RunsStayAfresh(cfg, Step(cfg, s, events[0]), events[1..], limit);
    }
  }

  /**
   * A run that saved its new checkpoint and stopped before it truncated an older output,
   * then a run that resumes: the tail of a longer output survives.
   */
  lemma LongerOutputSurvives(cfg: Config, s: State) returns (events: seq<Event>)
    requires Consistent(cfg) && Unmatched(cfg, s) && OutputLength(s.disk) > cfg.manifest.fileSize
    requires '\n' !in cfg.manifest.filename && cfg.manifest.chunkCount <= MAX_CHUNK_INDEXES
    requires ManifestCodec.Acceptable(cfg.manifest)
    ensures var t := Exec(cfg, s, events);
            Genuine(events) && AtComparison(t) && Serves(cfg, t.process.request) &&
            OutputLength(t.disk) >= OutputLength(s.disk)
  {
    hide Consistent, Exec, Render, Resume, Serves, Missing, ManifestCodec.Acceptable;
    NewWhenUnmatched(cfg, s);
    AllMissing(cfg);
    RunOpens(cfg, s);
    var first := OpeningEvents(cfg, s);
    var t := Exec(cfg, s, first);
    ExecConcat(cfg, s, first, [Stop]);
    ExecOne(cfg, t, Stop, []);
    ExecNothing(cfg, Step(cfg, t, Stop));
    assert [Stop] + [] == [Stop];
    var u := Step(cfg, t, Stop);
    SavedIsResumed(cfg, u.disk, Create(cfg.manifest));
    var second := OneRunReceives(cfg, u, Reach(cfg, u));
    events := first + [Stop] + second;
    ExecConcat(cfg, s, first + [Stop], second);
  }

  /**
   * Delivery from any output that is there at the start: every run that reaches the
   * comparison has exactly the source if and only if that output is not longer than the
   * file, or the name keeps every run from resuming, or nothing can be received at all: the
   * manifest cannot arrive, or the request is refused.
   */
  lemma DeliveryIff(cfg: Config, s: State)
    requires Consistent(cfg) && Unmatched(cfg, s)
    ensures (forall events :: Genuine(events) && AtComparison(Exec(cfg, s, events)) ==>
               Exec(cfg, s, events).disk.output == Some(cfg.source)) <==>
            OutputLength(s.disk) <= cfg.manifest.fileSize || '\n' in cfg.manifest.filename ||
            cfg.manifest.chunkCount > MAX_CHUNK_INDEXES || !ManifestCodec.Acceptable(cfg.manifest)
  {
    hide Consistent, Exec, Unmatched, ManifestCodec.Acceptable;
    SourceLength(cfg);
    if OutputLength(s.disk) <= cfg.manifest.fileSize || '\n' in cfg.manifest.filename ||
       cfg.manifest.chunkCount > MAX_CHUNK_INDEXES || !ManifestCodec.Acceptable(cfg.manifest) {
      forall events | Genuine(events) && AtComparison(Exec(cfg, s, events))
        ensures Exec(cfg, s, events).disk.output == Some(cfg.source)
      {
        DeliversSource(cfg, s, events);
      }
    } else {
      var events := LongerOutputSurvives(cfg, s);
    }
  }

  lemma StuckIsNotDone(cfg: Config, s: State, output: Option<Bytes>, whole: bool)
    requires Stuck(cfg, s, output, whole)
    ensures !AtComparison(s)
  {
    hide Missing, Resume, Serves;
    if s.process.Receiving? {
      RefusedIsNotServed(cfg, s.process.cp, whole);
    }
  }

  lemma DeliversSource(cfg: Config, s: State, events: seq<Event>)
    requires Consistent(cfg) && Unmatched(cfg, s) && Genuine(events) && AtComparison(Exec(cfg, s, events))
    requires OutputLength(s.disk) <= cfg.manifest.fileSize || '\n' in cfg.manifest.filename ||
             cfg.manifest.chunkCount > MAX_CHUNK_INDEXES || !ManifestCodec.Acceptable(cfg.manifest)
    ensures Exec(cfg, s, events).disk.output == Some(cfg.source)
  {
    hide Consistent, Counted, Exec, Resume, Render, ManifestCodec.Acceptable;
    UnmatchedIsAdmissible(cfg, s, events);
    Delivery(cfg, s, events, true);
    SourceLength(cfg);
    if '\n' in cfg.manifest.filename {
      RunsStayAfresh(cfg, s, events, Reach(cfg, s));
      SameLength(cfg.source, Exec(cfg, s, events).disk.output.value);
    } else if cfg.manifest.chunkCount > MAX_CHUNK_INDEXES {
      UnmatchedIsStuck(cfg, s);
      StuckForever(cfg, s, s.disk.output, events, false);
      StuckIsNotDone(cfg, Exec(cfg, s, events), s.disk.output, false);
    } else if !ManifestCodec.Acceptable(cfg.manifest) {
      NeverBegins(cfg, s, events);
    }
  }

  // ---------------------------------------------------------------- a chunk count that wraps

  /** With a count that wrapped there are no chunks, and a sender that claims the digest of nothing succeeds. */
  lemma WrappedSucceedsEmpty(cfg: Config, s: State) returns (events: seq<Event>)
    requires ManifestCodec.Acceptable(cfg.manifest) && !Planned(cfg.manifest) && Unmatched(cfg, s)
    ensures var t := Exec(cfg, s, events);
            t.process == Finished(true) && t.disk.output == Some([]) && cfg.manifest.fileSize > 0
  {
    hide Exec, Render, Resume, Missing, ManifestCodec.Acceptable, Sha256Spec.Sha256Hex, Serves;
    NoChunksAtAll(cfg);
    NewWhenUnmatched(cfg, s);
    AllMissing(cfg);
    RunOpens(cfg, s);
    var opening, digest := OpeningEvents(cfg, s), ForeignDigest(Sha256Spec.Sha256Hex([]), true);
    var t := Exec(cfg, s, opening);
    var t1 := Step(cfg, t, Prepare);
    events := opening + ([Prepare] + ([digest] + []));
    ExecConcat(cfg, s, opening, [Prepare] + ([digest] + []));
    ExecOne(cfg, t, Prepare, [digest] + []);
    ExecOne(cfg, t1, digest, []);
    ExecNothing(cfg, Step(cfg, t1, digest));
  }

  lemma NoChunksAtAll(cfg: Config)
    requires ManifestCodec.Acceptable(cfg.manifest) && !Planned(cfg.manifest)
    ensures cfg.manifest.chunkCount == 0 && cfg.manifest.fileSize > 0
  {
    hide ChunkCount;
    WrappedCountIsZero(cfg.manifest);
  }

  /**
   * The receiver announces on success that the announced number of bytes is there, and
   * never counts them. With any sender this is true exactly when the 64-bit sum of the
   * chunk count does not overflow, or the manifest is not accepted at all.
   */
  lemma ByteCountIff(cfg: Config, s: State)
    requires Unmatched(cfg, s) && OutputLength(s.disk) <= cfg.manifest.fileSize
    ensures (forall events :: Exec(cfg, s, events).process == Finished(true) ==>
               OutputLength(Exec(cfg, s, events).disk) == cfg.manifest.fileSize) <==>
            cfg.manifest.fileSize + cfg.manifest.chunkSize - 1 < TWO_64 || !ManifestCodec.Acceptable(cfg.manifest)
  {
    hide Exec, Unmatched, ChunkCount;
    if !ManifestCodec.Acceptable(cfg.manifest) {
      forall events
        ensures Exec(cfg, s, events) == s && s.process == Idle
      {
        StartsIdle(cfg, s);
        NeverBegins(cfg, s, events);
      }
    } else if Planned(cfg.manifest) {
      forall events | Exec(cfg, s, events).process == Finished(true)
        ensures OutputLength(Exec(cfg, s, events).disk) == cfg.manifest.fileSize
      {
        ByteCount(cfg, s, events);
      }
    } else {
      var events := WrappedSucceedsEmpty(cfg, s);
    }
  }

  lemma StartsIdle(cfg: Config, s: State)
    requires Unmatched(cfg, s)
    ensures s.process == Idle
  {
    hide Resume;
  }
}
