/**
 * The receiving program (apps/receiver.cpp) over a disk whose operations may
 * fail. Every disk operation and every exchange is entered in a ghost history,
 * and the program is proved to take the steps of the transfer state machine.
 */
module Receiver {
  import opened Base
  import opened Protocol
  import opened Chunks
  import opened Checkpoint
  import opened TcpSocket
  import opened Transfer
  import opened Wire
  import BigEndian
  import ManifestCodec
  import ChunkCodec
  import ContinuationCodec
  import HashCodec
  import Sha256
  import Sha256Spec

  /** A receiver's files, and the history of the transfer they belong to. */
  class Host {
    var output: Option<Bytes>
    var checkpoint: Option<string>
    var temp: Option<string>
    /** A file operation of this run failed. */
    var faulty: bool

    /** The transfer under way, the state in which it was taken up, and what happened since. */
    ghost var cfg: Config
    ghost var origin: State
    ghost var history: seq<Event>

    ghost function Now(): State
      reads this
    {
      Exec(cfg, origin, history)
    }

    /** The files are the disk of the history so far. */
    ghost predicate Valid()
      reads this
    {
      Counted(cfg.manifest) && origin.process == Idle && Now().disk == Disk(output, checkpoint, temp)
    }

    constructor (ghost cfg: Config, output: Option<Bytes>, checkpoint: Option<string>, temp: Option<string>)
      requires Counted(cfg.manifest)
      ensures Valid() && Resting() && history == [] && this.cfg == cfg
      ensures origin == State(Disk(output, checkpoint, temp), Idle, [])
    {
      this.output, this.checkpoint, this.temp, faulty := output, checkpoint, temp, false;
      this.cfg := cfg;
      origin := State(Disk(output, checkpoint, temp), Idle, []);
      history := [];
    }

    /** No run is under way. */
    ghost predicate Resting()
      reads this
    {
      Now().process.Idle? || Now().process.Finished?
    }

    ghost method Record(e: Event)
      modifies `history
      ensures Genuine(old(history)) && !Foreign(e) ==> Genuine(history)
      ensures Whole(history) ==> Whole(old(history)) && !Short(e)
      ensures Now() == Step(cfg, old(Now()), e)
    {
      ExecConcat(cfg, origin, history, [e]);
      ExecOne(cfg, Now(), e, []);
      ExecOne(cfg, Step(cfg, Now(), e), e, []);
      assert [e] + [] == [e];
      WholeParts(history, e);
      history := history + [e];
    }

    /** The run ends, by an error return or otherwise; nothing on disk changes. */
    ghost method End()
      requires Valid()
      modifies `history
      ensures Valid() && Now().process == Idle
      ensures Genuine(old(history)) ==> Genuine(history)
      ensures Whole(history) ==> Whole(old(history))
    {
      hide Exec, Genuine, Whole;
      Record(Stop);
    }

    // -------------------------------------------------------------- save_checkpoint

    /** Open the temporary file and stream the text into it; a write error goes unnoticed. */
    method WriteTempFile(cp: Checkpoint) returns (ok: bool)
      requires Valid() && Now().process.Saving? && Now().process.stage == Opening && Now().process.cp == cp
      modifies `temp, `history, `faulty
      ensures Valid()
      ensures ok ==> Now().process == old(Now().process).(stage := Removing)
      ensures ok ==> temp.Some? && temp.value <= Render(cp) && (Whole(history) ==> temp.value == Render(cp))
      ensures if ok then faulty == old(faulty) else faulty && Now().process == Idle
      ensures Genuine(old(history)) ==> Genuine(history)
      ensures Whole(history) ==> Whole(old(history))
    {
      hide Exec, Render, Step, Genuine, Whole;
      if * {
        faulty := true;
        End();
        return false;
      }
      temp := Some("");
      RecordSave(OpenTemp);
      var text := WriteText(cp);
      if * {
        var n :| 0 <= n <= |text|;
        temp := Some(text[..n]);
        assert text[..|text|] == text;
        RecordSave(ShortTemp(n));
        return true;
      }
      temp := Some(text);
      RecordSave(WriteTemp(|text|));
      return true;
    }

    /** Remove the old checkpoint, whether that works or not, and rename the temporary file. */
    method ReplaceCheckpoint(cp: Checkpoint) returns (ok: bool)
      requires Valid() && Now().process.Saving? && Now().process.stage == Removing && Now().process.cp == cp
      modifies `checkpoint, `temp, `history, `faulty
      ensures Valid()
      ensures ok ==> Now().process == AfterSave(cp, old(Now().process.after), old(Now().process.request))
      ensures ok ==> checkpoint == old(temp) && temp == None
      ensures if ok then faulty == old(faulty) else faulty && Now().process == Idle
      ensures Genuine(old(history)) ==> Genuine(history)
      ensures Whole(history) ==> Whole(old(history))
    {
      hide Exec, Render, Step, Genuine, Whole;
      var gone: bool := *;
      if gone {
        checkpoint := None;
      }
      RecordSave(RemoveOld(gone));
      if * {
        faulty := true;
        End();
        return false;
      }
      checkpoint, temp := temp, None;
      RecordSave(RenameTemp);
      return true;
    }

    method SaveCheckpoint(cp: Checkpoint) returns (ok: bool)
      requires Valid() && Now().process.Saving? && Now().process.stage == Opening && Now().process.cp == cp
      modifies `checkpoint, `temp, `history, `faulty
      ensures Valid()
      ensures ok ==> Now().process == AfterSave(cp, old(Now().process.after), old(Now().process.request))
      ensures ok ==> checkpoint.Some? && checkpoint.value <= Render(cp) && temp == None
      ensures ok && Whole(history) ==> checkpoint.value == Render(cp)
      ensures if ok then faulty == old(faulty) else faulty && Now().process == Idle
      ensures Genuine(old(history)) ==> Genuine(history)
    {
      hide Exec, Render, AfterSave, Genuine, Whole;
      ok := WriteTempFile(cp);
      if ok {
        ok := ReplaceCheckpoint(cp);
      }
    }

    ghost method RecordSave(e: Event)
      requires Now().process.Saving? && e != Stop && !Foreign(e)
      modifies `history
      ensures Genuine(old(history)) ==> Genuine(history)
      ensures Whole(history) ==> Whole(old(history)) && !Short(e)
      ensures (Now().disk, Now().process) == SaveStep(old(Now().disk), old(Now().process), e)
    {
      hide Exec, SaveStep, Genuine, Whole;
      Record(e);
    }

    // -------------------------------------------------------------- resume

    /** A manifest other than before begins another transfer over the same files. */
    ghost method TakeUp(m: FileManifest)
      requires Valid() && Resting() && Counted(m)
      modifies `cfg, `origin, `history
      ensures Valid() && Resting() && cfg.manifest == m
      ensures if m == old(cfg.manifest) then cfg == old(cfg) && origin == old(origin) && history == old(history)
              else origin == State(Disk(output, checkpoint, temp), Idle, []) && history == []
    {
      hide Counted, Step;
      if m != cfg.manifest {
        cfg := Config(m, []);
        origin := State(Disk(output, checkpoint, temp), Idle, []);
        history := [];
      }
    }

    /** The manifest arrives, and with it the transfer that this run is about. */
    method AcceptOffer(socket: TcpSocket) returns (m: Option<FileManifest>)
      requires Valid() && Resting()
      modifies `cfg, `origin, `history, socket`inbound, socket`faulty
      ensures Valid() && Resting()
      ensures Genuine(old(history)) ==> Genuine(history)
      ensures var read := ReadManifest(old(socket.inbound));
              if m.Some? then read == Some((m.value, socket.inbound)) && m.value == cfg.manifest &&
                              ManifestCodec.Acceptable(m.value) && socket.faulty == old(socket.faulty)
              else !socket.open || socket.faulty || read == None
      ensures (cfg == old(cfg) && origin == old(origin)) ||
              (m.Some? && m.value != old(cfg.manifest) && origin == State(Disk(output, checkpoint, temp), Idle, []))
    {
      hide Exec, ReadManifest, Genuine, Counted, Step, ManifestCodec.Acceptable;
      ghost var stream := socket.inbound;
      m := ReceiveManifest(socket);
      if m.Some? {
        ManifestIsAcceptable(stream);
        NoEventsGenuine();
        TakeUp(m.value);
      }
    }

    /** The run begins with the checkpoint that it goes by. */
    method BeginRun(manifest: FileManifest) returns (cp: Checkpoint, afresh: bool)
      requires Valid() && Resting() && manifest == cfg.manifest && ManifestCodec.Acceptable(manifest)
      modifies `history
      ensures Valid() && Now().process == Connected(cp, afresh)
      ensures Genuine(old(history)) ==> Genuine(history)
      ensures (cp, afresh) == Resume(cfg, Disk(output, checkpoint, temp)) && Matches(cp, manifest)
    {
      hide Exec, Genuine, Counted, Resume, Matches, ManifestCodec.Acceptable;
      Record(Begin);
      cp, afresh := ChooseCheckpoint(manifest);
    }

    /** The request for the missing chunks goes out. */
    method AskForMissing(socket: TcpSocket, manifest: FileManifest, cp: Checkpoint, ghost afresh: bool)
      returns (ok: bool, todo: seq<u64>)
      requires Valid() && Now().process == Connected(cp, afresh) && manifest == cfg.manifest && Matches(cp, manifest)
      modifies `history, socket`outbound, socket`faulty
      ensures Valid() && todo == Missing(cp)
      ensures Genuine(old(history)) ==> Genuine(history)
      ensures if ok then Now().process == Saving(cp, Opening, PrepareNext(afresh), todo) &&
                         socket.faulty == old(socket.faulty) &&
                         socket.outbound == old(socket.outbound) + ContinuationCodec.Encode(Request(manifest, cp))
              else Now().process == Idle && (!socket.open || socket.faulty)
    {
      hide Exec, ContinuationCodec.Encode, Missing, Genuine, Counted;
      todo := MissingChunks(cp);
      var request := ContinuationCodec.Serialize(ContinueRequest(manifest.sessionId, manifest.chunkCount, todo));
      ok := socket.SendAll(request);
      if ok {
        Record(SendRequest);
      } else {
        End();
      }
    }

    /** Lines 153 to 192: read the manifest, choose the checkpoint, ask for what is missing. */
    method Negotiate(socket: TcpSocket)
      returns (ok: bool, manifest: FileManifest, cp: Checkpoint, afresh: bool, todo: seq<u64>)
      requires Valid() && Resting()
      modifies `cfg, `origin, `history, `faulty, socket
      ensures Valid() && !faulty && socket.open == old(socket.open)
      ensures Genuine(old(history)) ==> Genuine(history)
      ensures var read := ReadManifest(old(socket.inbound));
              (cfg == old(cfg) && origin == old(origin)) ||
              (read.Some? && cfg.manifest == read.value.0 != old(cfg.manifest) &&
               origin == State(Disk(output, checkpoint, temp), Idle, []))
      ensures !ok ==> Resting() && (!socket.open || socket.faulty || ReadManifest(old(socket.inbound)) == None)
      ensures ok ==> ReadManifest(old(socket.inbound)) == Some((manifest, socket.inbound)) && manifest == cfg.manifest
      ensures ok ==> socket.faulty == old(socket.faulty)
      ensures ok ==> (cp, afresh) == Resume(cfg, Disk(output, checkpoint, temp))
      ensures ok ==> todo == Missing(cp) && Matches(cp, cfg.manifest)
      ensures ok ==> Now().process == Saving(cp, Opening, PrepareNext(afresh), todo)
      ensures ok ==> socket.outbound == old(socket.outbound) + ContinuationCodec.Encode(Request(cfg.manifest, cp))
    {
      hide Exec, ReadManifest, ContinuationCodec.Encode, Missing, Genuine, Counted, Resume, Matches, Step,
        ManifestCodec.Acceptable;
      manifest, cp, afresh, todo := FileManifest("", 0, 0, 0, [], 0, 0), EMPTY, true, [];
      faulty := false;
      var received := AcceptOffer(socket);
      if received.None? {
        return false, manifest, cp, afresh, todo;
      }
      manifest := received.value;
      cp, afresh := BeginRun(manifest);
      ok, todo := AskForMissing(socket, manifest, cp, afresh);
    }

    /** load_checkpoint and checkpoint_matches_manifest, or a new checkpoint. */
    method ChooseCheckpoint(m: FileManifest) returns (cp: Checkpoint, afresh: bool)
      requires m == cfg.manifest
      ensures (cp, afresh) == Resume(cfg, Disk(output, checkpoint, temp))
      ensures Matches(cp, m)
    {
      hide Load;
      if output.Some? && checkpoint.Some? {
        var loaded := ReadText(checkpoint.value);
        if loaded.Some? {
          var matches := MatchesManifest(loaded.value, m);
          if matches {
            return loaded.value, false;
          }
        }
      }
      return Create(m), true;
    }

    // -------------------------------------------------------------- chunks

    /** prepare_output_file and the opening of the output. */
    method PrepareOutput(afresh: bool) returns (ok: bool)
      requires Valid() && Now().process.Preparing? && Now().process.afresh == afresh
      modifies `output, `history, `faulty
      ensures Valid()
      ensures Genuine(old(history)) ==> Genuine(history)
      ensures ok ==> output == (if afresh then Some([]) else old(output)) && output.Some?
      ensures ok ==> var was := old(Now().process); Now().process == Receiving(was.cp, was.request, was.request)
      ensures if ok then faulty == old(faulty) else Now().process == Idle && (faulty || (!afresh && old(output).None?))
    {
      hide Exec, Render, Genuine;
      if * {
        faulty := true;
        End();
        return false;
      }
      if afresh {
        output := Some([]);
      } else if output.None? {
        End();
        return false;
      }
      Record(Prepare);
      if * {
        // The file was truncated or found, but cannot be opened.
        faulty := true;
        End();
        return false;
      }
      return true;
    }

    /** The data is what this transfer's sender sends for chunk `i` of a request that it serves. */
    ghost predicate Own(request: seq<u64>, i: u64, data: Bytes)
      reads this
    {
      Serves(cfg, request) && Payload(cfg, i) == Some(data)
    }

    /** Seek and write, then the save that follows it; the write may be cut short. */
    method StoreChunk(cp: Checkpoint, offset: u64, data: Bytes, i: u64)
      returns (ok: bool, cp': Checkpoint)
      requires Valid() && output.Some? && Now().process.Receiving? && Now().process.cp == cp
      requires Now().process.todo != [] && Now().process.todo[0] == i
      requires offset == ByteOffset(cfg.manifest, i) && |data| == PayloadSize(cfg.manifest, i)
      modifies `output, `checkpoint, `temp, `history, `faulty
      ensures Valid()
      ensures Own(old(Now().process.request), i, data) && Genuine(old(history)) ==> Genuine(history)
      ensures ok ==> output == Some(Overlay(old(output.value), offset, data))
      ensures ok ==> cp' == cp.(completed := cp.completed + {i})
      ensures ok ==> Now().process == Receiving(cp', old(Now().process.todo[1..]), old(Now().process.request))
      ensures if ok then faulty == old(faulty) else faulty && Now().process == Idle
    {
      hide Exec, Render, Serves, Payload, ByteOffset, PayloadSize, Genuine, Overlay;
      cp' := cp;
      ghost var own := Own(Now().process.request, i, data);
      if * {
        var n :| 0 <= n <= |data|;
        output := Some(Overlay(output.value, offset, data[..n]));
        Record(if own then TornWrite(n) else ForeignTorn(data, n));
        faulty := true;
        return false, cp';
      }
      output := Some(Overlay(output.value, offset, data));
      Record(if own then AcceptChunk else ForeignChunk(data));
      cp' := cp.(completed := cp.completed + {i});
      ok := SaveCheckpoint(cp');
    }

    /** One pass of the receiving loop, on any bytes. */
    method ReceiveChunk(socket: TcpSocket, manifest: FileManifest, cp: Checkpoint, i: u64, ghost rest: seq<u64>)
      returns (ok: bool, cp': Checkpoint)
      requires manifest == cfg.manifest
      requires Valid() && output.Some? && Now().process.Receiving? && Now().process.cp == cp
      requires Now().process.todo == [i] + rest
      modifies `output, `checkpoint, `temp, `history, `faulty, socket`inbound, socket`faulty
      ensures Valid()
      ensures FromSender(cfg, [i] + rest, old(Now().process.request), old(socket.inbound)) ==>
                (Genuine(old(history)) ==> Genuine(history)) &&
                (ok ==> FromSender(cfg, rest, old(Now().process.request), socket.inbound))
      ensures ok ==> Now().process == Receiving(cp', rest, old(Now().process.request))
      ensures ok ==> var chunk := ReadChunk(manifest, i, old(socket.inbound));
                     chunk.Some? && chunk.value.1 == socket.inbound &&
                     output == Some(Overlay(old(output.value), ByteOffset(manifest, i), chunk.value.0))
      ensures ok ==> faulty == old(faulty) && socket.faulty == old(socket.faulty)
      ensures !ok ==> Now().process == Idle
      ensures !ok ==> faulty || !socket.open || socket.faulty || ReadChunk(manifest, i, old(socket.inbound)) == None
    {
      hide Exec, Counted, Serves, Payload, ByteOffset, PayloadSize, ReadHeader, ValidateChunkHeader, Genuine,
        FromSender, Overlay;
      cp' := cp;
      ghost var stream, request := socket.inbound, Now().process.request;
      var header := ReceiveChunkHeader(socket);
      if header.None? {
        End();
        return false, cp';
      }
      var h := header.value;
      if h.chunkIndex != i || !ValidateChunkHeader(manifest, h) {
        End();
        return false, cp';
      }
      var data;
      ok, data := socket.RecvExact(h.payloadSize);
      if !ok {
        End();
        return false, cp';
      }
      assert ReadChunk(manifest, i, stream) == Some((data, socket.inbound));
      AcceptedHeader(cfg, h);
      if FromSender(cfg, [i] + rest, request, stream) {
        PartialChunk(cfg, i, rest, request, stream);
      }
      assert Now().process.todo[1..] == rest;
      ok, cp' := StoreChunk(cp, h.byteOffset, data, h.chunkIndex);
    }

    method ReceiveFileChunks(socket: TcpSocket, manifest: FileManifest, todo: seq<u64>, cp: Checkpoint, afresh: bool)
      returns (ok: bool)
      requires manifest == cfg.manifest
      requires Valid() && Now().process == Preparing(cp, afresh, todo)
      modifies `output, `checkpoint, `temp, `history, `faulty, socket`inbound, socket`faulty
      ensures Valid()
      ensures FromSender(cfg, todo, todo, old(socket.inbound)) ==>
                (Genuine(old(history)) ==> Genuine(history)) && (ok ==> FromSender(cfg, [], todo, socket.inbound))
      ensures ok ==> Now().process.Receiving? && Now().process.todo == [] && Now().process.request == todo
      ensures ok ==> output.Some? && (afresh || old(output).Some?) &&
                     Assemble(manifest, todo, old(socket.inbound), if afresh then [] else old(output.value)) ==
                     Some((output.value, socket.inbound))
      ensures ok ==> faulty == old(faulty) && socket.faulty == old(socket.faulty)
      ensures !ok ==> Now().process == Idle
      ensures !ok ==> faulty || !socket.open || socket.faulty || (!afresh && old(output).None?) ||
                      Assemble(manifest, todo, old(socket.inbound), if afresh then [] else old(output.value)) == None
    {
      hide Exec, Counted, Serves, ReadChunk, Genuine, FromSender, Overlay, ByteOffset;
      ok := PrepareOutput(afresh);
      if !ok {
        return;
      }
      var current := cp;
      ghost var result := Assemble(manifest, todo, socket.inbound, output.value);
      assert todo[0..] == todo;
      for k := 0 to |todo|
        invariant Valid() && output.Some? && Now().process == Receiving(current, todo[k..], todo)
        invariant FromSender(cfg, todo, todo, old(socket.inbound)) ==>
                    (Genuine(old(history)) ==> Genuine(history)) && FromSender(cfg, todo[k..], todo, socket.inbound)
        invariant faulty == old(faulty) && socket.faulty == old(socket.faulty)
        invariant Assemble(manifest, todo[k..], socket.inbound, output.value) == result
      {
        assert todo[k..] == [todo[k]] + todo[k + 1..];
        ok, current := ReceiveChunk(socket, manifest, current, todo[k], todo[k + 1..]);
        if !ok {
          return;
        }
      }
      assert todo[|todo|..] == [];
      return true;
    }

    // -------------------------------------------------------------- verify

    ghost method RecordComparison(hex: string, gone: bool)
      requires Now().process.Receiving? && Now().process.todo == [] && Now().disk.output.Some?
      modifies `history
      ensures Now() == CompareStep(old(Now()), hex, gone)
      ensures Serves(cfg, old(Now().process.request)) && hex == Sha256Spec.Sha256Hex(cfg.source) ==>
                Genuine(old(history)) ==> Genuine(history)
    {
      hide Exec, Serves, Sha256Spec.Sha256Hex, Genuine, CompareStep;
      var own := Serves(cfg, Now().process.request) && hex == Sha256Spec.Sha256Hex(cfg.source);
      Record(if own then CompareDigest(gone) else ForeignDigest(hex, gone));
    }

    /** Lines 220 to 251: the digest packet, the digest of the output, the comparison. */
    method Verify(socket: TcpSocket, manifest: FileManifest) returns (exit: nat)
      requires manifest == cfg.manifest
      requires Valid() && output.Some? && Now().process.Receiving? && Now().process.todo == []
      modifies `checkpoint, `history, `faulty, socket`inbound, socket`faulty
      ensures Valid()
      ensures FromSender(cfg, [], old(Now().process.request), old(socket.inbound)) ==>
                (Genuine(old(history)) ==> Genuine(history)) && (exit == 0 ==> Serves(cfg, old(Now().process.request)))
      ensures exit == 0 ==> Now().process == Finished(true) &&
                            ReadDigest(manifest, old(socket.inbound)) == Some(Sha256Spec.Sha256Hex(output.value))
      ensures exit != 0 ==> faulty || !socket.open || socket.faulty || Now().process == Finished(false) ||
                            ReadDigest(manifest, old(socket.inbound)) == None
      ensures exit != 0 ==> checkpoint == old(checkpoint)
      ensures exit != 0 ==> Now().process == Idle ||
                            (Now().process == Finished(false) &&
                             ReadDigest(manifest, old(socket.inbound)) != Some(Sha256Spec.Sha256Hex(output.value)))
    {
      hide Exec, Serves, ReadHash, Render, Sha256Spec.Sha256Hex, Genuine, FromSender;
      ghost var stream, request := socket.inbound, Now().process.request;
      var packet := ReceiveHashPacket(socket);
      if packet.None? || packet.value.sessionId != manifest.sessionId {
        End();
        return 1;
      }
      if FromSender(cfg, [], request, stream) {
        PartialDigest(cfg, request, stream);
      }
      var file := new Sha256.InputStream(output.value);
      var computed := Sha256.Sha256File(file);
      if computed.None? {
        faulty := true;
        End();
        return 1;
      }
      var expected := packet.value.sha256Hex;
      if computed.value == expected {
        var gone: bool := *;
        if gone {
          checkpoint := None;
        }
        RecordComparison(expected, gone);
        return 0;
      }
      RecordComparison(expected, false);
      return 1;
    }

    /** Lines 202 to 251, on any bytes: the first save, the chunks, the digest. */
    method Complete(socket: TcpSocket, manifest: FileManifest, cp: Checkpoint, afresh: bool, todo: seq<u64>)
      returns (exit: nat)
      requires manifest == cfg.manifest
      requires Valid() && Now().process == Saving(cp, Opening, PrepareNext(afresh), todo) && (afresh || output.Some?)
      modifies `output, `checkpoint, `temp, `history, `faulty, socket`inbound, socket`faulty
      ensures Valid() && Resting()
      ensures FromSender(cfg, todo, todo, old(socket.inbound)) ==>
                (Genuine(old(history)) ==> Genuine(history)) && (exit == 0 ==> Serves(cfg, todo))
      ensures var reply := ReadReply(manifest, todo, old(socket.inbound), if afresh then [] else old(output.value));
              if exit == 0 then
                Now().process == Finished(true) && output.Some? &&
                reply == Some((output.value, Sha256Spec.Sha256Hex(output.value)))
              else
                faulty || !socket.open || socket.faulty || reply == None ||
                (Now().process == Finished(false) && output.Some? && reply.value.0 == output.value &&
                 reply.value.1 != Sha256Spec.Sha256Hex(output.value))
    {
      hide Exec, Counted, Serves, Render, Genuine, FromSender, Assemble, ReadDigest, Sha256Spec.Sha256Hex;
      var ok := SaveCheckpoint(cp);
      if !ok {
        return 1;
      }
      ok := ReceiveFileChunks(socket, manifest, todo, cp, afresh);
      if !ok {
        return 1;
      }
      exit := Verify(socket, manifest);
    }
  }

  // ---------------------------------------------------------------- what a stream stands for

  /** The bytes of the sender's reply, whole or cut off; without a request it serves there are none. */
  ghost predicate FromSender(cfg: Config, todo: seq<u64>, request: seq<u64>, stream: Bytes) {
    AllReadable(cfg, todo) && stream <= ReplyBytes(cfg, todo) && (stream != [] ==> Serves(cfg, request))
  }

  /** The output after the chunks of a stream are written over `b`, and the rest of the stream. */
  ghost function Assemble(m: FileManifest, todo: seq<u64>, stream: Bytes, b: Bytes): Option<(Bytes, Bytes)>
    decreases |todo|
  {
    if todo == [] then Some((b, stream))
    else
      match ReadChunk(m, todo[0], stream)
      case None => None
      case Some((data, rest)) => Assemble(m, todo[1..], rest, Overlay(b, ByteOffset(m, todo[0]), data))
  }

  /** The digest of a packet of this session. */
  ghost function ReadDigest(m: FileManifest, stream: Bytes): Option<string> {
    match ReadHash(stream)
    case None => None
    case Some((p, _)) => if p.sessionId == m.sessionId then Some(p.sha256Hex) else None
  }

  /** The output that a reply produces and the digest that it claims. */
  ghost function ReadReply(m: FileManifest, todo: seq<u64>, stream: Bytes, b: Bytes): Option<(Bytes, string)> {
    match Assemble(m, todo, stream, b)
    case None => None
    case Some((output, rest)) =>
      match ReadDigest(m, rest)
      case None => None
      case Some(hex) => Some((output, hex))
  }

  /** A digest packet counts exactly if it is of this session. */
  lemma DigestReadsExactly(m: FileManifest, packet: HashPacket, rest: Bytes)
    requires Sha256.IsSha256Hex(packet.sha256Hex)
    ensures ReadDigest(m, HashCodec.Encode(packet) + rest) ==
            if packet.sessionId == m.sessionId then Some(packet.sha256Hex) else None
  {
    hide ReadHash, HashCodec.Encode;
    HashReads(packet, rest);
  }

  /** Chunks are assembled from a stream exactly when they can be read from it, and the same bytes are left. */
  lemma {:induction false} AssembleReads(m: FileManifest, todo: seq<u64>, stream: Bytes, b: Bytes)
    ensures var a, r := Assemble(m, todo, stream, b), ReadChunks(m, todo, stream);
            (a.Some? <==> r.Some?) && (a.Some? ==> a.value.1 == r.value.1)
    decreases |todo|
  {
    hide ReadChunk, Overlay, ByteOffset;
    if todo != [] && ReadChunk(m, todo[0], stream).Some? {
      var (data, rest) := ReadChunk(m, todo[0], stream).value;
      AssembleReads(m, todo[1..], rest, Overlay(b, ByteOffset(m, todo[0]), data));
    }
  }

  /** The sender's whole reply is a complete one and claims the digest of the source. */
  lemma WholeReply(cfg: Config, todo: seq<u64>, b: Bytes)
    requires Consistent(cfg) && InRange(cfg, todo) && AllReadable(cfg, todo)
    ensures var r := ReadReply(cfg.manifest, todo, ReplyBytes(cfg, todo), b);
            r.Some? && r.value.1 == Sha256Spec.Sha256Hex(cfg.source)
  {
    hide Consistent, Payload, ChunkStream, HashCodec.Encode, ReadHash, Assemble, ReadChunks, Sha256Spec.Sha256Hex;
    var packet := DigestPacket(cfg);
    var tail := HashCodec.Encode(packet);
    ChunksRead(cfg, todo, tail);
    AssembleReads(cfg.manifest, todo, ReplyBytes(cfg, todo), b);
    HashReads(packet, []);
    assert tail + [] == tail;
  }

  // ---------------------------------------------------------------- truncated streams

  lemma WholeParts(events: seq<Event>, e: Event)
    ensures Whole(events + [e]) ==> Whole(events) && !Short(e)
  {
    var all := events + [e];
    assert all[|events|] == e && forall i :: 0 <= i < |events| ==> all[i] == events[i];
  }

  lemma NoEventsGenuine()
    ensures Genuine([])
  {
  }

  /** Whatever is read as a manifest is one that the decoder accepts. */
  lemma ManifestIsAcceptable(stream: Bytes)
    ensures ReadManifest(stream).Some? ==>
              ManifestCodec.Acceptable(ReadManifest(stream).value.0) && Counted(ReadManifest(stream).value.0)
  {
    hide BigEndian.Decode, ChunkCount;
  }

  /** A manifest that arrives at all is the one that was sent. */
  lemma PartialManifest(m: FileManifest, stream: Bytes)
    requires ManifestCodec.Acceptable(m) && stream <= ManifestCodec.Encode(m) && ReadManifest(stream).Some?
    ensures ReadManifest(stream).value == (m, []) && stream == ManifestCodec.Encode(m)
  {
    hide ManifestCodec.Header, BigEndian.Encode, BigEndian.Decode, ManifestCodec.Decode, ChunkCount;
    var f := ManifestCodec.Encode(m);
    ManifestReads(m, []);
    assert f + [] == f;
    assert stream[0..4] == f[0..4];
    var size := BigEndian.Decode32(f[0..4]);
    assert f[4 + size..] == [];
    assert stream == f;
  }

  lemma WholeManifest(m: FileManifest, stream: Bytes)
    requires ManifestCodec.Acceptable(m)
    ensures stream == ManifestCodec.Encode(m) ==> ReadManifest(stream).Some?
  {
    hide ManifestCodec.Encode, ReadManifest, ManifestCodec.Acceptable;
    ManifestReads(m, []);
    assert ManifestCodec.Encode(m) + [] == ManifestCodec.Encode(m);
  }

  /** An accepted header has the offset and the size of its chunk. */
  lemma AcceptedHeader(cfg: Config, h: ChunkHeader)
    requires Counted(cfg.manifest) && ValidateChunkHeader(cfg.manifest, h)
    ensures h.chunkIndex < cfg.manifest.chunkCount
    ensures h.byteOffset == ByteOffset(cfg.manifest, h.chunkIndex)
    ensures h.payloadSize == PayloadSize(cfg.manifest, h.chunkIndex)
  {
    hide Counted, Planned, ByteOffset, PayloadSize;
    ChunksArePlanned(cfg.manifest);
    HeaderAgreement(cfg.manifest, h);
  }

  /** A chunk that arrives from the sender, whose stream may be cut off later, is the expected one. */
  lemma PartialChunk(cfg: Config, i: u64, rest: seq<u64>, request: seq<u64>, stream: Bytes)
    requires FromSender(cfg, [i] + rest, request, stream) && ReadChunk(cfg.manifest, i, stream).Some?
    ensures var (data, tail) := ReadChunk(cfg.manifest, i, stream).value;
            Serves(cfg, request) && Payload(cfg, i) == Some(data) && FromSender(cfg, rest, request, tail)
  {
    hide ChunkCodec.Encode, ChunkCodec.Decode, HashCodec.Encode, Payload, Serves, DigestPacket, ByteOffset,
      PayloadSize, ValidateChunkHeader;
    var h := SenderHeader(cfg.manifest, i);
    assert ([i] + rest)[0] == i && ([i] + rest)[1..] == rest;
    var payload, tail := Payload(cfg, i).value, ReplyBytes(cfg, rest);
    var all := ChunkCodec.Encode(h) + (payload + tail);
    assert ReplyBytes(cfg, [i] + rest) == all;
    HeaderReads(h, payload + tail);
    assert stream[..ChunkCodec.SIZE] == all[..ChunkCodec.SIZE];
    PayloadLength(cfg, i);
    var after := stream[ChunkCodec.SIZE..];
    assert after <= payload + tail;
    assert after[..|payload|] == (payload + tail)[..|payload|] == payload;
    assert after[|payload|..] <= (payload + tail)[|payload|..] == tail;
  }

  /** A digest packet that arrives from the sender carries the digest of the source. */
  lemma PartialDigest(cfg: Config, request: seq<u64>, stream: Bytes)
    requires FromSender(cfg, [], request, stream) && ReadHash(stream).Some?
    ensures Serves(cfg, request) && ReadHash(stream).value.0.sha256Hex == Sha256Spec.Sha256Hex(cfg.source)
  {
    hide HashCodec.Encode, HashCodec.Decode, Sha256Spec.Sha256Hex, Serves;
    var packet := DigestPacket(cfg);
    var p := HashCodec.Encode(packet);
    HashReads(packet, []);
    assert p + [] == p && ReplyBytes(cfg, []) == p;
    assert stream[..HashCodec.SIZE] == p[..HashCodec.SIZE];
  }
}
