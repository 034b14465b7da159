/**
 * The resumable transfer as a state machine. A history is a sequence of events
 * of the receiver program over one disk: runs begin, are served by the sender,
 * save checkpoints in three file system operations, stop anywhere and begin
 * again. The source file and its manifest stay the same.
 */
module Transfer {
  import opened Base
  import opened Protocol
  import opened Indexes
  import opened Chunks
  import opened Checkpoint
  import ContinuationCodec
  import ManifestCodec
  import Sha256Spec

  // ---------------------------------------------------------------- states

  datatype Config = Config(manifest: FileManifest, source: Bytes)

  /** The manifest describes the source, and its chunk count did not wrap. */
  predicate Consistent(cfg: Config) {
    Planned(cfg.manifest) && |cfg.source| == cfg.manifest.fileSize
  }

  /** The three files a receiver touches: the output, the checkpoint and its temporary file. */
  datatype Disk = Disk(output: Option<Bytes>, checkpoint: Option<string>, temp: Option<string>)

  /** The operation that save_checkpoint performs next. */
  datatype Stage = Opening | Writing | Removing | Renaming

  /** What the program does after a save: prepare the output file, or go on with the remaining chunks. */
  datatype After = PrepareNext(afresh: bool) | ReceiveNext(todo: seq<u64>)

  datatype Process =
    | Idle
    | Connected(cp: Checkpoint, afresh: bool)
    | Saving(cp: Checkpoint, stage: Stage, after: After, request: seq<u64>)
    | Preparing(cp: Checkpoint, afresh: bool, request: seq<u64>)
    | Receiving(cp: Checkpoint, todo: seq<u64>, request: seq<u64>)
    | Finished(verified: bool)

  /** What the runs asked for and accepted, in order. */
  datatype Entry = Requested(indexes: seq<u64>) | Accepted(index: u64)

  datatype State = State(disk: Disk, process: Process, ledger: seq<Entry>)

  // ---------------------------------------------------------------- events

  datatype Event =
    | Begin                       // a receiver accepts a connection, reads the manifest and picks its checkpoint
    | SendRequest                 // the continuation request is sent
    | OpenTemp                    // the temporary file is opened and truncated
    | WriteTemp(n: nat)           // its first n characters, or all of them, are on disk
    | ShortTemp(n: nat)           // only n characters could be written, and the save goes on unaware
    | RemoveOld(gone: bool)       // the old checkpoint is removed, or the removal fails and is ignored
    | RenameTemp                  // the temporary file becomes the checkpoint
    | Prepare                     // the output file is truncated or checked, and opened
    | AcceptChunk                 // the next chunk arrives, is validated and written
    | TornWrite(n: nat)           // only n bytes of it are written, and the run fails
    | CompareDigest(gone: bool)   // the hash packet arrives; on success the checkpoint is removed, if that works
    | ForeignChunk(data: Bytes)   // some other sender's bytes arrive under an acceptable header, and are written
    | ForeignTorn(data: Bytes, n: nat)
    | ForeignDigest(hex: string, gone: bool)
    | Stop                        // the process fails, is killed, or loses its connection

  /** The events that the sender of this transfer does not cause. */
  predicate Foreign(e: Event) {
    e.ForeignChunk? || e.ForeignTorn? || e.ForeignDigest?
  }

  /** A history with this transfer's sender only. */
  predicate Genuine(events: seq<Event>) {
    forall i :: 0 <= i < |events| ==> !Foreign(events[i])
  }

  predicate Short(e: Event) {
    e.ShortTemp?
  }

  /** A history whose saves are never cut short unnoticed. */
  predicate Whole(events: seq<Event>) {
    forall i :: 0 <= i < |events| ==> !Short(events[i])
  }

  /** The checkpoint a new run goes by, and whether it starts afresh. */
  function Resume(cfg: Config, d: Disk): (Checkpoint, bool) {
    if d.output.Some? && d.checkpoint.Some? && Load(d.checkpoint.value).Some? &&
       Matches(Load(d.checkpoint.value).value, cfg.manifest) then
      (Load(d.checkpoint.value).value, false)
    else
      (Create(cfg.manifest), true)
  }

  /** A run goes on with an output only if there is one. */
  lemma ResumeNeedsOutput(cfg: Config, d: Disk)
    ensures !Resume(cfg, d).1 ==> d.output.Some?
  {
    hide Load;
  }

  /** The sender serves a request that it can decode from the wire and that it finds valid. */
  predicate Serves(cfg: Config, request: seq<u64>) {
    var m := cfg.manifest;
    var decoded := ContinuationCodec.Decode(
      ContinuationCodec.Encode(ContinueRequest(m.sessionId, m.chunkCount, request)));
    decoded.Some? && ContinuationCodec.Valid(m, decoded.value)
  }

  /** The bytes the sender reads for a chunk; a short read stops it. */
  function Payload(cfg: Config, i: u64): Option<Bytes> {
    var offset, size := ByteOffset(cfg.manifest, i), PayloadSize(cfg.manifest, i);
    if offset + size <= |cfg.source| then Some(cfg.source[offset..offset + size]) else None
  }

  lemma PayloadLength(cfg: Config, i: u64)
    ensures Payload(cfg, i).Some? ==> |Payload(cfg, i).value| == PayloadSize(cfg.manifest, i)
  {
    hide ByteOffset, PayloadSize;
  }

  /** A write at an offset; a gap before it reads as zeros. */
  function Overlay(b: Bytes, offset: nat, data: Bytes): Bytes {
    (if offset <= |b| then b[..offset] else b + Sha256Spec.Zeros(offset - |b|)) + data +
    (if offset + |data| <= |b| then b[offset + |data|..] else [])
  }

  /** Byte by byte: the data where it is written, the old bytes elsewhere, zeros in a gap; nothing is cut off. */
  lemma OverlayBytes(b: Bytes, offset: nat, data: Bytes)
    ensures var r := Overlay(b, offset, data);
            |r| == (if |b| <= offset + |data| then offset + |data| else |b|) &&
            forall i :: 0 <= i < |r| ==>
              r[i] == (if offset <= i < offset + |data| then data[i - offset] else if i < |b| then b[i] else 0)
  {
  }

  function AfterSave(cp: Checkpoint, after: After, request: seq<u64>): Process {
    match after
    case PrepareNext(afresh) => Preparing(cp, afresh, request)
    case ReceiveNext(todo) => Receiving(cp, todo, request)
  }

  /** One operation of save_checkpoint. */
  function SaveStep(d: Disk, p: Process, e: Event): (Disk, Process)
    requires p.Saving?
  {
    var text := Render(p.cp);
    match (p.stage, e)
    case (Opening, OpenTemp) => (d.(temp := Some("")), p.(stage := Writing))
    case (Writing, WriteTemp(n)) =>
      if n < |text| then (d.(temp := Some(text[..n])), p) else (d.(temp := Some(text)), p.(stage := Removing))
    case (Writing, ShortTemp(n)) =>
      (d.(temp := Some(if n < |text| then text[..n] else text)), p.(stage := Removing))
    case (Removing, RemoveOld(gone)) => (if gone then d.(checkpoint := None) else d, p.(stage := Renaming))
    case (Renaming, RenameTemp) => (d.(checkpoint := d.temp, temp := None), AfterSave(p.cp, p.after, p.request))
    case _ => (d, p)
  }

  /** A chunk is written and its index recorded; the save follows. */
  function StoreStep(cfg: Config, s: State, data: Bytes): State
    requires s.process.Receiving? && s.process.todo != [] && s.disk.output.Some?
  {
    var p, i := s.process, s.process.todo[0];
    State(s.disk.(output := Some(Overlay(s.disk.output.value, ByteOffset(cfg.manifest, i), data))),
          Saving(p.cp.(completed := p.cp.completed + {i}), Opening, ReceiveNext(p.todo[1..]), p.request),
          s.ledger + [Accepted(i)])
  }

  /** A write that is cut short ends the run. */
  function TornStep(cfg: Config, s: State, data: Bytes, n: nat): State
    requires s.process.Receiving? && s.process.todo != [] && s.disk.output.Some?
  {
    if n > |data| then s
    else
      var offset := ByteOffset(cfg.manifest, s.process.todo[0]);
      State(s.disk.(output := Some(Overlay(s.disk.output.value, offset, data[..n]))), Idle, s.ledger)
  }

  /** The arrival of the next requested chunk: from this sender, if it serves the request, or from another. */
  function ChunkStep(cfg: Config, s: State, e: Event): State
    requires s.process.Receiving? && s.process.todo != [] && s.disk.output.Some?
  {
    var i := s.process.todo[0];
    var own := if Serves(cfg, s.process.request) then Payload(cfg, i) else None;
    match e
    case AcceptChunk => if own.Some? then StoreStep(cfg, s, own.value) else s
    case TornWrite(n) => if own.Some? then TornStep(cfg, s, own.value, n) else s
    case ForeignChunk(data) => if |data| == PayloadSize(cfg.manifest, i) then StoreStep(cfg, s, data) else s
    case ForeignTorn(data, n) => if |data| == PayloadSize(cfg.manifest, i) then TornStep(cfg, s, data, n) else s
    case _ => s
  }

  /** The comparison with an expected digest; on success the checkpoint is removed, if that works. */
  function CompareStep(s: State, hex: string, gone: bool): State
    requires s.disk.output.Some?
  {
    var verified := Sha256Spec.Sha256Hex(s.disk.output.value) == hex;
    State(if verified && gone then s.disk.(checkpoint := None) else s.disk, Finished(verified), s.ledger)
  }

  /** The arrival of a digest after the last chunk. */
  function DigestStep(cfg: Config, s: State, e: Event): State
    requires s.process.Receiving? && s.disk.output.Some?
  {
    match e
    case CompareDigest(gone) =>
      if Serves(cfg, s.process.request) then CompareStep(s, Sha256Spec.Sha256Hex(cfg.source), gone) else s
    case ForeignDigest(hex, gone) => CompareStep(s, hex, gone)
    case _ => s
  }

  /** One event. An event that the program cannot take at this point changes nothing. */
  function Step(cfg: Config, s: State, e: Event): State {
    var d, p := s.disk, s.process;
    if e == Stop then s.(process := Idle)
    else
      match p
      case Idle => BeginStep(cfg, s, e)
      case Finished(_) => BeginStep(cfg, s, e)
      case Connected(cp, afresh) =>
        if e == SendRequest then
          State(d, Saving(cp, Opening, PrepareNext(afresh), Missing(cp)), s.ledger + [Requested(Missing(cp))])
        else s
      case Saving(_, _, _, _) =>
        var (d', p') := SaveStep(d, p, e);
        State(d', p', s.ledger)
      case Preparing(cp, afresh, request) =>
        if e == Prepare && (afresh || d.output.Some?) then
          State(if afresh then d.(output := Some([])) else d, Receiving(cp, request, request), s.ledger)
        else s
      case Receiving(_, todo, request) =>
        if d.output.None? then s
        else if todo == [] then DigestStep(cfg, s, e)
        else ChunkStep(cfg, s, e)
  }

  /** A run starts only if the manifest can be sent and is one that the decoder accepts. */
  function BeginStep(cfg: Config, s: State, e: Event): State {
    if e == Begin && ManifestCodec.Acceptable(cfg.manifest) then
      var (cp, afresh) := Resume(cfg, s.disk);
      s.(process := Connected(cp, afresh))
    else s
  }

  function Exec(cfg: Config, s: State, events: seq<Event>): State
    decreases |events|
  {
    if events == [] then s else Exec(cfg, Step(cfg, s, events[0]), events[1..])
  }

  lemma {:induction false} ExecConcat(cfg: Config, s: State, a: seq<Event>, b: seq<Event>)
    ensures Exec(cfg, s, a + b) == Exec(cfg, Exec(cfg, s, a), b)
    decreases |a|
  {
    hide Step;
    if a == [] {
      assert a + b == b;
    } else {
      assert (a + b)[1..] == a[1..] + b;
      ExecConcat(cfg, Step(cfg, s, a[0]), a[1..], b);
    }
  }

  lemma ExecOne(cfg: Config, s: State, e: Event, rest: seq<Event>)
    ensures Exec(cfg, s, [e] + rest) == Exec(cfg, Step(cfg, s, e), rest)
    ensures Exec(cfg, s, []) == s
  {
    hide Step;
    assert ([e] + rest)[1..] == rest;
  }

  // ---------------------------------------------------------------- where a history starts

  function OutputLength(d: Disk): nat {
    if d.output.Some? then |d.output.value| else 0
  }

  /** Nothing on disk is taken for a checkpoint of this transfer; an output file may be there. */
  predicate Unmatched(cfg: Config, s: State) {
    s.process == Idle && s.ledger == [] && Resume(cfg, s.disk).1
  }

  /** There is no output file; the other two files may hold anything. */
  predicate Initial(s: State) {
    s.disk.output == None && s.process == Idle && s.ledger == []
  }

  // ---------------------------------------------------------------- saved checkpoints

  /** The checkpoint that says the first `k` chunks are done. */
  function FirstChunks(cfg: Config, k: nat): Checkpoint
    requires k <= cfg.manifest.chunkCount
  {
    Create(cfg.manifest).(completed := Below(k))
  }

  lemma MissingAfter(cfg: Config, k: nat)
    requires k <= cfg.manifest.chunkCount
    ensures Missing(FirstChunks(cfg, k)) == Range(k, cfg.manifest.chunkCount)
    ensures Matches(FirstChunks(cfg, k), cfg.manifest)
  {
    hide Ascending;
    AscendingAbove(k, cfg.manifest.chunkCount);
  }

  /** What was saved is what the next run goes by, unless the file name keeps it from loading. */
  lemma SavedIsResumed(cfg: Config, d: Disk, c: Checkpoint)
    requires Matches(c, cfg.manifest) && d.output.Some? && d.checkpoint == Some(Render(c))
    ensures Resume(cfg, d) == if '\n' in cfg.manifest.filename then (Create(cfg.manifest), true) else (c, false)
  {
    hide Render, Load;
    RoundTrip(c);
    LoadHasNoNewline(Render(c));
  }

  /**
   * Which checkpoint a run goes by: the one on disk exactly if there is an output, the
   * file loads, and name, size, chunk size and chunk count are the manifest's and every
   * completed index is in range; otherwise a new one with nothing completed.
   */
  lemma ResumeExactly(cfg: Config, d: Disk, c: Checkpoint)
    requires d.checkpoint.Some? ==> Load(d.checkpoint.value) == None || Load(d.checkpoint.value) == Some(c)
    ensures var m := cfg.manifest;
            Resume(cfg, d) ==
            if d.output.Some? && d.checkpoint.Some? && Load(d.checkpoint.value).Some? &&
               c.filename == m.filename && c.fileSize == m.fileSize && c.chunkSize == m.chunkSize &&
               c.totalChunks == m.chunkCount && (forall i :: i in c.completed ==> i < m.chunkCount) then (c, false)
            else (Create(m), true)
  {
    hide Load;
  }

  /** The same for a checkpoint that was saved. */
  lemma SavedResumesExactly(cfg: Config, d: Disk, c: Checkpoint)
    requires '\n' !in c.filename && d.output.Some? && d.checkpoint == Some(Render(c))
    ensures var m := cfg.manifest;
            Resume(cfg, d) ==
            if c.filename == m.filename && c.fileSize == m.fileSize && c.chunkSize == m.chunkSize &&
               c.totalChunks == m.chunkCount && (forall i :: i in c.completed ==> i < m.chunkCount) then (c, false)
            else (Create(m), true)
  {
    hide Load, Render, Resume;
    RoundTrip(c);
    ResumeExactly(cfg, d, c);
  }
}
