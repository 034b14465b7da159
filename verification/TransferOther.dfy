/**
 * Two transfers over the same files. A checkpoint is compared with the manifest by name,
 * size, chunk size and chunk count, so a run under another manifest trusts nothing of an
 * earlier transfer. Names with a newline are the exception.
 */
module TransferOther {
  import opened Base
  import opened Protocol
  import opened Text
  import opened Chunks
  import opened Checkpoint
  import opened CheckpointCut
  import opened Transfer
  import opened TransferAnySender
  import Sha256Spec
  import ManifestCodec

  /** The manifests differ in what a checkpoint is compared by. */
  predicate Differs(m: FileManifest, m': FileManifest) {
    m.filename != m'.filename || m.fileSize != m'.fileSize || m.chunkSize != m'.chunkSize ||
    m.chunkCount != m'.chunkCount
  }

  /** A run under this manifest would trust no chunk; if saves were whole, it would start afresh. */
  predicate TrustsNothing(other: Config, d: Disk, whole: bool) {
    Resume(other, d).0 == Create(other.manifest) && (whole ==> Resume(other, d).1)
  }

  /** A saved checkpoint of one transfer, even if it was cut short, is not trusted by another. */
  lemma SavedForAnother(cfg: Config, other: Config, d: Disk, c: Checkpoint, whole: bool)
    requires Matches(c, cfg.manifest) && Differs(cfg.manifest, other.manifest) && '\n' !in cfg.manifest.filename
    requires d.checkpoint == None || d.output == None || TextOf(d.checkpoint, c, whole)
    ensures TrustsNothing(other, d, whole)
  {
    hide Render, Load, Resume;
    if d.checkpoint == None || d.output == None {
      NoCheckpointStartsAfresh(other, d);
    } else if whole {
      SavedResumesExactly(other, d, c);
    } else {
      CutForAnother(cfg, other, d, c);
    }
  }

  lemma CutForAnother(cfg: Config, other: Config, d: Disk, c: Checkpoint)
    requires Matches(c, cfg.manifest) && Differs(cfg.manifest, other.manifest) && '\n' !in cfg.manifest.filename
    requires TextOf(d.checkpoint, c, false)
    ensures Resume(other, d).0 == Create(other.manifest)
  {
    hide Render, Load;
    CutKeepsFields(c, d.checkpoint.value);
  }

  lemma StepForAnother(cfg: Config, other: Config, s: State, e: Event, limit: nat, whole: bool)
    requires Differs(cfg.manifest, other.manifest) && '\n' !in cfg.manifest.filename
    requires Bounded(cfg, s, limit) && Texts(s.disk, s.process, whole) && TrustsNothing(other, s.disk, whole)
    ensures TrustsNothing(other, Step(cfg, s, e).disk, whole)
  {
    hide Render, Resume, Missing, Matches, Pending, Payload, PayloadSize, Serves, Overlay, ByteOffset,
      Sha256Spec.Sha256Hex, ManifestCodec.Acceptable;
    var d, d', p := s.disk, Step(cfg, s, e).disk, s.process;
    if d'.checkpoint == d.checkpoint && (d'.output.Some? <==> d.output.Some?) {
      SameFilesResumed(other, d, d');
    } else {
      SavedForAnother(cfg, other, d', p.cp, whole);
    }
  }

  /**
   * After any history of one transfer, with any sender, a run under a manifest that
   * differs in name, size, chunk size or chunk count trusts no chunk of it; if no save
   * was cut short, it starts afresh.
   */
  lemma {:induction false} OtherManifestTrustsNothing(cfg: Config, other: Config, s: State, events: seq<Event>,
                                                      limit: nat, whole: bool)
    requires Counted(cfg.manifest) && Differs(cfg.manifest, other.manifest) && '\n' !in cfg.manifest.filename
    requires Bounded(cfg, s, limit) && Texts(s.disk, s.process, whole) && TrustsNothing(other, s.disk, whole)
    requires whole ==> Whole(events)
    ensures TrustsNothing(other, Exec(cfg, s, events).disk, whole)
    decreases |events|
  {
    hide Counted, Bounded, Texts, TrustsNothing, Differs, Step, Short;
    if events != [] {
      StepForAnother(cfg, other, s, events[0], limit, whole);
      StepStaysBounded(cfg, s, events[0], limit);
      StepKeepsTexts(cfg, s, events[0], whole);
      OtherManifestTrustsNothing(cfg, other, Step(cfg, s, events[0]), events[1..], limit, whole);
    }
  }

  /** In particular from files without an output. */
  lemma OtherManifestStartsAfresh(cfg: Config, other: Config, s: State, events: seq<Event>)
    requires Counted(cfg.manifest) && Initial(s) && Whole(events) && '\n' !in cfg.manifest.filename
    requires var m, m' := cfg.manifest, other.manifest;
             m.filename != m'.filename || m.fileSize != m'.fileSize || m.chunkSize != m'.chunkSize ||
             m.chunkCount != m'.chunkCount
    ensures Resume(other, Exec(cfg, s, events).disk) == (Create(other.manifest), true)
  {
    hide Counted, Exec, Resume, Whole;
    NoCheckpointStartsAfresh(other, s.disk);
    OtherManifestTrustsNothing(cfg, other, s, events, cfg.manifest.fileSize, true);
  }

  // ---------------------------------------------------------------- names with a newline

  /** The name that is loaded for a name with newlines is one that a manifest can have. */
  lemma LoadedNameIsBytes(c: Checkpoint, i: nat)
    requires (forall k :: 0 <= k < |c.filename| ==> c.filename[k] as int < 256) && Load(Render(c)).Some?
    requires i < |Load(Render(c)).value.filename|
    ensures Load(Render(c)).value.filename[i] as int < 256
  {
    hide Render, Load, LoadLines, Split;
    NewlineLoads(c);
    var name := FILENAME + c.filename + ['\n'];
    var lines, ch := NameLines(c.filename), Load(Render(c)).value.filename[i];
    LoadedNameCharacters(EMPTY, lines, ch);
    var k :| 0 <= k < |lines| && ch in lines[k];
    SplitCharacters(name, '\n', k, ch);
    KeyIsBytes();
    var j :| 0 <= j < |name| && name[j] == ch;
    assert j < |FILENAME| ==> name[j] == FILENAME[j];
    assert |FILENAME| <= j < |FILENAME| + |c.filename| ==> name[j] == c.filename[j - |FILENAME|];
  }

  lemma KeyIsBytes()
    ensures forall j :: 0 <= j < |FILENAME| ==> FILENAME[j] as int < 256
  {
  }

  /**
   * A saved checkpoint of one transfer is trusted under some other manifest exactly if
   * the name has a newline and the text loads at all.
   */
  lemma TrustedByAnotherIff(cfg: Config, d: Disk, c: Checkpoint)
    requires Matches(c, cfg.manifest) && d.output.Some? && d.checkpoint == Some(Render(c))
    ensures (exists other: Config :: Differs(cfg.manifest, other.manifest) && !Resume(other, d).1) <==>
            '\n' in cfg.manifest.filename && Load(Render(c)).Some?
  {
    hide Render, Load, Resume;
    if '\n' !in cfg.manifest.filename {
      forall other: Config | Differs(cfg.manifest, other.manifest)
        ensures Resume(other, d).1
      {
        SavedForAnother(cfg, other, d, c, true);
      }
    } else if Load(Render(c)).None? {
      forall other: Config
        ensures Resume(other, d).1
      {
        ResumeExactly(other, d, c);
      }
    } else {
      var other := NewlineWitness(cfg, d, c);
    }
  }

  lemma NewlineWitness(cfg: Config, d: Disk, c: Checkpoint) returns (other: Config)
    requires Matches(c, cfg.manifest) && d.output.Some? && d.checkpoint == Some(Render(c))
    requires '\n' in cfg.manifest.filename && Load(Render(c)).Some?
    ensures Differs(cfg.manifest, other.manifest) && !Resume(other, d).1
  {
    hide Render, Load, Resume, LoadLines, NameLines;
    NewlineLoads(c);
    LoadHasNoNewline(Render(c));
    var loaded := Load(Render(c)).value;
    forall i | 0 <= i < |loaded.filename|
      ensures loaded.filename[i] as int < 256
    {
      LoadedNameIsBytes(c, i);
    }
    var name: ByteString := loaded.filename;
    other := cfg.(manifest := cfg.manifest.(filename := name));
    ResumeExactly(other, d, loaded);
  }

  /** A checkpoint of the name "a\nb" is trusted under the name "a". */
  lemma FirstLineTrustsSecond(cfg: Config, d: Disk, c: Checkpoint, other: Config)
    requires cfg.manifest.filename == "a\nb" && Matches(c, cfg.manifest)
    requires d.output.Some? && d.checkpoint == Some(Render(c))
    requires other.manifest == cfg.manifest.(filename := "a")
    ensures Resume(other, d) == (c.(filename := "a"), false)
  {
    hide Render, Load, Resume;
    NewlineExample(c);
    ResumeExactly(other, d, c.(filename := "a"));
  }
}
