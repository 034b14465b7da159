/** One whole run: a sender and a receiver program at the two ends of a connection that may break anywhere. */
module Session {
  import opened Base
  import opened Protocol
  import opened Chunks
  import opened Checkpoint
  import opened TcpSocket
  import opened Transfer
  import opened TransferTrust
  import opened TransferSafety
  import TransferShape
  import TransferAnySender
  import opened TransferProgress
  import opened Wire
  import opened Receiver
  import Sender
  import FileUtils
  import ManifestCodec
  import ContinuationCodec
  import Sha256
  import Sha256Spec

  /** A request longer than the limit is not read back by the sender. */
  lemma OversizeUnreadable(r: ContinueRequest)
    requires MAX_CHUNK_INDEXES < |r.missing| < TWO_64
    ensures ReadRequest(ContinuationCodec.Encode(r)) == None
  {
    hide ContinuationCodec.Encode, ContinuationCodec.Decode;
    ContinuationCodec.FixedPart(r);
  }

  /** The sender on the wire and the sender of the state machine serve the same requests. */
  lemma ServedOnTheWire(cfg: Config, cp: Checkpoint)
    requires Matches(cp, cfg.manifest)
    ensures var todo, r := Missing(cp), ReadRequest(ContinuationCodec.Encode(Request(cfg.manifest, cp)));
            (r.Some? <==> |todo| <= MAX_CHUNK_INDEXES) && (r.Some? <==> Serves(cfg, todo)) &&
            (r.Some? ==> r.value.0 == Request(cfg.manifest, cp))
    ensures ContinuationCodec.Valid(cfg.manifest, Request(cfg.manifest, cp))
  {
    hide ContinuationCodec.Encode, ContinuationCodec.Decode, Missing;
    var r := Request(cfg.manifest, cp);
    var p := ContinuationCodec.Encode(r);
    RequestIsValid(cfg.manifest, cp);
    ContinuationCodec.AlreadyPresentFits(cfg.manifest, r);
    if |r.missing| <= MAX_CHUNK_INDEXES {
      assert p == p + [];
      RequestReads(r, p, []);
      ContinuationCodec.Bijection(r, p);
    } else {
      OversizeUnreadable(r);
      ContinuationCodec.OversizeRefused(r);
    }
  }

  /** Every transfer that the sender itself sets up is one the theorems are about. */
  lemma SenderTransfersQualify(path: ByteString, source: Bytes)
    requires |source| < 0x8000_0000_0000_0000
    requires |FileUtils.Sanitize(FileUtils.Basename(path))| <= MAX_FILENAME_LENGTH
    ensures var cfg := Config(FileUtils.SenderManifest(path, |source|), source);
            Consistent(cfg) && ManifestCodec.Acceptable(cfg.manifest) && '\n' !in cfg.manifest.filename
  {
    hide ManifestCodec.Decode, ManifestCodec.Encode, FileUtils.Sanitize, FileUtils.Basename, ChunkCount;
    var m := FileUtils.SenderManifest(path, |source|);
    FileUtils.SenderManifestAccepted(path, |source|);
    ManifestCodec.Bijection(m, ManifestCodec.Encode(m));
  }

  /** The largest file that the sender's chunk size lets through: a million chunks of 64 KiB. */
  const LARGEST_DELIVERABLE: nat := 65_536_000_000

  /** A file can be delivered by the sender exactly up to that size, and under a name of at most 255 bytes. */
  lemma SenderCompletionIff(path: ByteString, source: Bytes, s: State)
    requires |source| < 0x8000_0000_0000_0000
    requires Unmatched(Config(FileUtils.SenderManifest(path, |source|), source), s)
    ensures var cfg := Config(FileUtils.SenderManifest(path, |source|), source);
            (exists events :: Genuine(events) && Complete(cfg, Exec(cfg, s, events))) <==>
            |source| <= LARGEST_DELIVERABLE &&
            |FileUtils.Sanitize(FileUtils.Basename(path))| <= MAX_FILENAME_LENGTH
  {
    hide Exec, FileUtils.Sanitize, FileUtils.Basename, Unmatched, Complete, ChunkCount, Genuine,
      ManifestCodec.Decode, ManifestCodec.Encode;
    var cfg := Config(FileUtils.SenderManifest(path, |source|), source);
    FileUtils.SenderManifestAccepted(path, |source|);
    ManifestCodec.Bijection(cfg.manifest, ManifestCodec.Encode(cfg.manifest));
    CompletionIff(cfg, s);
    CountIsCeiling(cfg.manifest);
  }

  /** One byte more makes one chunk too many. */
  lemma OneByteTooMany(path: ByteString)
    ensures FileUtils.SenderManifest(path, LARGEST_DELIVERABLE).chunkCount == MAX_CHUNK_INDEXES
    ensures FileUtils.SenderManifest(path, LARGEST_DELIVERABLE + 1).chunkCount == MAX_CHUNK_INDEXES + 1
  {
    hide FileUtils.Sanitize, FileUtils.Basename;
  }

  /** A name that is one byte too long: the sender has no frame to send. */
  lemma NameTooLong(path: ByteString)
    requires |path| == MAX_FILENAME_LENGTH + 1 && forall i :: 0 <= i < |path| ==> path[i] == 'a'
    ensures ManifestCodec.Encode(FileUtils.SenderManifest(path, 1)) == []
  {
    hide FileUtils.Sanitize, FileUtils.Basename, ManifestCodec.Frame, ChunkCount;
    FileUtils.BasenameFixed(path);
    FileUtils.SafeNameFixed(path);
  }

  /** A manifest that the decoder accepts, and whose checkpoint is not loaded as it was saved. */
  lemma NewlineNameArrives()
    ensures var m := FileManifest("a\nb", 1, 1, 1, ManifestCodec.NO_DIGEST, PROTOCOL_VERSION, 0);
            ManifestCodec.Decode(ManifestCodec.Encode(m)) == Some(m) &&
            Load(Render(Create(m))) != Some(Create(m))
  {
    hide ManifestCodec.Decode, ManifestCodec.Encode, Load, Render;
    var m := FileManifest("a\nb", 1, 1, 1, ManifestCodec.NO_DIGEST, PROTOCOL_VERSION, 0);
    assert m.filename[1] == '\n';
    ManifestCodec.RoundTrip(m);
    RoundTrip(Create(m));
  }

  /** The manifest of a file of 2^64 - 1 bytes, in chunks of 64 KiB, whose count wraps to none. */
  const WRAPPED := FileManifest("a", 0xffff_ffff_ffff_ffff, 0x1_0000, 0, ManifestCodec.NO_DIGEST, PROTOCOL_VERSION, 0)

  /** The decoder accepts it, and the receiver can report success with an empty output. */
  lemma WrappedManifestArrives(source: Bytes, s: State)
    requires Unmatched(Config(WRAPPED, source), s)
    ensures ManifestCodec.Decode(ManifestCodec.Encode(WRAPPED)) == Some(WRAPPED) && !Planned(WRAPPED)
    ensures exists events ::
              var t := Exec(Config(WRAPPED, source), s, events);
              t.process == Finished(true) && t.disk.output == Some([])
  {
    hide Exec, Unmatched, ManifestCodec.Decode, ManifestCodec.Encode;
    ChunkCountWraps();
    ManifestCodec.RoundTrip(WRAPPED);
    var events := WrappedSucceedsEmpty(Config(WRAPPED, source), s);
  }

  /** The transfer that the two ends of a new connection are about to make, after runs with the same sender. */
  ghost predicate Ready(host: Host, cfg: Config, file: Sha256.InputStream, near: TcpSocket, far: TcpSocket)
    reads host, file, near, far
  {
    cfg == host.cfg && Consistent(cfg) && ManifestCodec.Acceptable(cfg.manifest) &&
    host.Valid() && host.Resting() && Genuine(host.history) &&
    Trustworthy(cfg, host.origin) && OutputLength(host.origin.disk) <= cfg.manifest.fileSize &&
    file.Valid() && file.content == cfg.source && file.position == 0 && !file.eof && !file.bad &&
    near != far && near.open && far.open && !near.faulty && !far.faulty &&
    near.inbound == near.outbound == far.inbound == far.outbound == []
  }

  /** The files of this host are accounted for: no save was cut short, or what was trusted at the start is closed. */
  ghost predicate Accounted(host: Host)
    reads host
  {
    Savable(host.cfg, host.origin, host.history)
  }

  /** Neither the connection nor a file operation failed noticeably. */
  ghost predicate Undisturbed(host: Host, file: Sha256.InputStream, near: TcpSocket, far: TcpSocket)
    reads host, file, near, far
  {
    !host.faulty && !file.bad && !near.faulty && !far.faulty
  }

  /** The chunks that the next run of this host will ask for. */
  ghost function Wanted(host: Host): seq<u64>
    reads host
  {
    Missing(Resume(host.cfg, Disk(host.output, host.checkpoint, host.temp)).0)
  }

  /**
   * A run of the two programs, over byte streams that may be cut up in any way and
   * broken off at any byte, on a disk whose operations may fail, after any history. The
   * history may have started from any output that is not longer than the file, and from
   * any checkpoint whose chunks are in it; but if that set was not closed, and a save was
   * later cut short unnoticed, nothing is claimed.
   * The run takes steps of the transfer state machine only. A receiver that reports
   * success has the source. A run that nothing disturbs succeeds exactly when at
   * most a million chunks are missing; one that asks for more never does.
   */
  method Run(host: Host, cfg: Config, file: Sha256.InputStream, near: TcpSocket, far: TcpSocket) returns (exit: nat)
    requires Ready(host, cfg, file, near, far)
    modifies host, file, near, far
    ensures host.Valid() && host.Resting() && Genuine(host.history)
    ensures host.cfg == cfg && host.origin == old(host.origin)
    ensures exit == 0 ==> host.Now().process == Finished(true) && |old(Wanted(host))| <= MAX_CHUNK_INDEXES
    ensures exit == 0 && Accounted(host) ==> host.output == Some(cfg.source)
    ensures |old(Wanted(host))| <= MAX_CHUNK_INDEXES && Undisturbed(host, file, near, far) && Accounted(host) ==>
              exit == 0
    ensures Initial(host.origin) && host.output.Some? ==> host.output.value <= cfg.source
  {
    hide Exec, Consistent, ManifestCodec.Acceptable, Render, Load, Missing, Resume, Genuine, Whole, Counted, Serves;
    exit := RunPrograms(host, cfg, file, near, far);
    if Accounted(host) {
      Delivery(cfg, host.origin, host.history, true);
    }
    if Initial(host.origin) {
      TransferShape.ReachableShape(cfg, host.origin, host.history);
    }
  }

  method RunPrograms(host: Host, cfg: Config, file: Sha256.InputStream, near: TcpSocket, far: TcpSocket)
    returns (exit: nat)
    requires Ready(host, cfg, file, near, far)
    modifies host, file, near, far
    ensures host.Valid() && host.Resting() && Genuine(host.history)
    ensures host.cfg == cfg && host.origin == old(host.origin)
    ensures exit == 0 ==> host.Now().process == Finished(true)
    ensures exit == 0 ==> |old(Wanted(host))| <= MAX_CHUNK_INDEXES
    ensures |old(Wanted(host))| <= MAX_CHUNK_INDEXES && Undisturbed(host, file, near, far) && Accounted(host) ==>
              exit == 0
  {
    hide Exec, Consistent, ManifestCodec.Acceptable, ManifestCodec.Encode, Payload, ReplyBytes, Serves, Render,
      Load, Missing, ReadRequest, ReadManifest, ReadReply, Sha256Spec.Sha256Hex, ContinuationCodec.Encode, Resume,
      Genuine, Whole, Counted, Step;
    var expectedHash := Sha256.Sha256File(file);
    if expectedHash.None? {
      return 1;
    }
    var offered := Sender.Offer(near, cfg.manifest);
    far.Deliver(near.outbound);
    ManifestArrives(cfg.manifest, far.inbound);
    var ok, manifest, cp, afresh, todo := host.Negotiate(far);
    if !ok {
      return 1;
    }
    ServedOnTheWire(cfg, cp);
    Sender.ReadableInRange(cfg, todo);
    ResumeNeedsOutput(cfg, Disk(host.output, host.checkpoint, host.temp));
    if offered {
      Answer(cfg, cp, file, near, far, expectedHash.value);
    }
    WholeReply(cfg, todo, if afresh then [] else host.output.value);
    exit := host.Complete(far, manifest, cp, afresh, todo);
    if Accounted(host) {
      Delivery(cfg, host.origin, host.history, true);
    }
  }

  /** The request reaches the sender, and what the sender answers reaches the receiver. */
  method Answer(cfg: Config, ghost cp: Checkpoint, file: Sha256.InputStream, near: TcpSocket, far: TcpSocket,
                expectedHash: string)
    requires Consistent(cfg) && Matches(cp, cfg.manifest) && expectedHash == Sha256Spec.Sha256Hex(cfg.source)
    requires file.Valid() && file.content == cfg.source
    requires near != far && near.open && near.inbound == far.inbound == []
    requires far.outbound == ContinuationCodec.Encode(Request(cfg.manifest, cp))
    modifies file, near, far`inbound
    ensures FromSender(cfg, Missing(cp), Missing(cp), far.inbound)
    ensures Serves(cfg, Missing(cp)) && !near.faulty && !file.bad ==> far.inbound == ReplyBytes(cfg, Missing(cp))
  {
    hide Consistent, Payload, ReplyBytes, Serves, Missing, ReadRequest, Sha256Spec.Sha256Hex, ContinuationCodec.Encode;
    ghost var todo, before := Missing(cp), near.outbound;
    ServedOnTheWire(cfg, cp);
    Sender.ReadableInRange(cfg, todo);
    near.Deliver(far.outbound);
    assert near.inbound == ContinuationCodec.Encode(Request(cfg.manifest, cp));
    var sent := |near.outbound|;
    var served := Sender.Serve(near, cfg, file, expectedHash);
    far.Deliver(near.outbound[sent..]);
    assert near.outbound[sent..] <= (before + ReplyBytes(cfg, todo))[sent..] == ReplyBytes(cfg, todo);
  }

  /** What arrives of a manifest frame is the whole manifest or nothing. */
  lemma ManifestArrives(m: FileManifest, stream: Bytes)
    requires ManifestCodec.Acceptable(m) && stream <= ManifestCodec.Encode(m)
    ensures ManifestCodec.Encode(m) != []
    ensures ReadManifest(stream) == (if stream == ManifestCodec.Encode(m) then Some((m, [])) else None)
  {
    hide ManifestCodec.Header, ReadManifest, ManifestCodec.Decode;
    WholeManifest(m, stream);
    if ReadManifest(stream).Some? {
      PartialManifest(m, stream);
    }
  }

  /**
   * The output that a stream of any sender makes of the files of this host, and the
   * digest that it claims: a manifest, the chunks that are then asked for, a digest packet.
   */
  ghost function Outcome(host: Host, stream: Bytes, reply: Bytes): Option<(Bytes, string)>
    reads host
  {
    match ReadManifest(stream)
    case None => None
    case Some((m, early)) =>
      var (cp, afresh) := Resume(Config(m, []), Disk(host.output, host.checkpoint, host.temp));
      ReadReply(m, Missing(cp), early + reply, if afresh || host.output.None? then [] else host.output.value)
  }

  /** The source plays no part in the choice of a checkpoint. */
  lemma ResumeByManifest(cfg: Config, source: Bytes, d: Disk)
    ensures Resume(cfg, d) == Resume(cfg.(source := source), d)
  {
    hide Load;
  }

  /**
   * A run of the receiver against any sender: one that offers any manifest, or none, and
   * then sends anything. The output never outgrows the file of the manifest, or what
   * was there when that manifest was taken up. It has exactly the announced size after a
   * success, if nothing was trusted at the start. Success means that the output is
   * what the sender's chunks make of the earlier output and that it has the digest the
   * sender claims; if nothing is disturbed, such a stream succeeds.
   */
  method RunAgainstAnySender(host: Host, far: TcpSocket, reply: Bytes) returns (exit: nat)
    requires host.Valid() && host.Resting()
    modifies host, far
    ensures host.Valid() && host.Resting()
    ensures var read := old(ReadManifest(far.inbound));
            (host.cfg == old(host.cfg) && host.origin == old(host.origin)) ||
            (read.Some? && host.cfg.manifest == read.value.0 &&
             host.origin.disk == old(Disk(host.output, host.checkpoint, host.temp)))
    ensures host.output.Some? ==> |host.output.value| <= Reach(host.cfg, host.origin)
    ensures exit == 0 && Unmatched(host.cfg, host.origin) && Fits(host.cfg, host.origin.disk) &&
            Planned(host.cfg.manifest) ==>
              host.output.Some? && |host.output.value| == host.cfg.manifest.fileSize
    ensures var outcome := old(Outcome(host, far.inbound, reply));
            if exit == 0 then
              host.output.Some? && outcome == Some((host.output.value, Sha256Spec.Sha256Hex(host.output.value)))
            else
              host.faulty || !far.open || far.faulty || outcome == None ||
              outcome.value.1 != Sha256Spec.Sha256Hex(outcome.value.0)
  {
    hide Exec, Render, Load, Missing, ReadManifest, ReadReply, Sha256Spec.Sha256Hex, ContinuationCodec.Encode,
      Resume, Genuine, FromSender, Counted;
    var ok, manifest, cp, afresh, todo := host.Negotiate(far);
    exit := 1;
    if ok {
      ghost var d := Disk(host.output, host.checkpoint, host.temp);
      ResumeNeedsOutput(host.cfg, d);
      ResumeByManifest(host.cfg, [], d);
      far.Deliver(reply);
      exit := host.Complete(far, manifest, cp, afresh, todo);
    }
    if Planned(host.cfg.manifest) && Unmatched(host.cfg, host.origin) && Fits(host.cfg, host.origin.disk) {
      ByteCount(host.cfg, host.origin, host.history);
    }
    TransferAnySender.AnySenderStaysInFile(host.cfg, host.origin, host.history, Reach(host.cfg, host.origin));
  }
}
