/**
 * The main theorems about whole histories: resume safety and delivery with this transfer's
 * sender, and the length of what is delivered with any.
 */
module TransferSafety {
  import opened Base
  import opened Chunks
  import opened Checkpoint
  import opened Transfer
  import opened TransferAnySender
  import opened TransferTrust
  import opened TransferShape
  import Sha256Spec

  /**
   * Where a history may start: every chunk that a run would trust is in the output. If a
   * save may be cut short unnoticed, the set of these chunks is closed.
   */
  predicate Admissible(cfg: Config, s: State, events: seq<Event>) {
    Trustworthy(cfg, s) && Savable(cfg, s, events)
  }

  lemma LengthBound(cfg: Config, s: State, events: seq<Event>)
    requires Counted(cfg.manifest) && s.process == Idle
    ensures OutputLength(Exec(cfg, s, events).disk) <= Reach(cfg, s)
  {
    hide Exec, Counted;
    AnySenderStaysInFile(cfg, s, events, Reach(cfg, s));
  }

  /**
   * Resume safety: at every moment, every chunk that the next run would trust is in
   * the output with the bytes of the source, and the output is no longer than the file
   * or than the output that was there at the start.
   */
  lemma ResumeSafety(cfg: Config, s: State, events: seq<Event>)
    requires Consistent(cfg) && Genuine(events) && Admissible(cfg, s, events)
    ensures var d := Exec(cfg, s, events).disk;
            OutputLength(d) <= Reach(cfg, s) && forall i :: i in Resume(cfg, d).0.completed ==> Present(cfg, d, i)
  {
    hide Consistent, Exec, Resume, Present, ProcessSound, ProcessBounded, Genuine, Savable;
    HistorySound(cfg, s, events);
  }

  /** A run that has nothing left to receive, or has compared, has an output that begins with the source. */
  lemma BeginsWithSource(cfg: Config, s: State, events: seq<Event>)
    requires Consistent(cfg) && Genuine(events) && Admissible(cfg, s, events)
    ensures var t := Exec(cfg, s, events);
            AtComparison(t) || t.process.Finished? ==>
              t.disk.output.Some? && cfg.source <= t.disk.output.value &&
              (t.process.Finished? && t.disk.output.value == cfg.source ==> t.process.verified)
  {
    hide Consistent, Exec, Resume, Present, Genuine, Savable, AllPresent;
    HistorySound(cfg, s, events);
    var t := Exec(cfg, s, events);
    if AtComparison(t) {
      NothingMissing(cfg, t, Reach(cfg, s));
    }
  }

  /**
   * Delivery: a run that has nothing left to receive has an output that begins with the
   * source. If the output at the start was not longer than the file, it is the source, so the
   * comparison of digests succeeds whatever stops and resumes came before it.
   */
  lemma Delivery(cfg: Config, s: State, events: seq<Event>, gone: bool)
    requires Consistent(cfg) && Genuine(events) && Admissible(cfg, s, events)
    ensures var t := Exec(cfg, s, events);
            AtComparison(t) || t.process.Finished? ==> t.disk.output.Some? && cfg.source <= t.disk.output.value
    ensures var t := Exec(cfg, s, events);
            OutputLength(s.disk) <= cfg.manifest.fileSize ==>
              (AtComparison(t) ==>
                 t.disk.output == Some(cfg.source) &&
                 (Serves(cfg, t.process.request) ==> Step(cfg, t, CompareDigest(gone)).process == Finished(true))) &&
              (t.process.Finished? ==> t.process.verified && t.disk.output == Some(cfg.source))
  {
    hide Consistent, Exec, Resume, AllPresent, Genuine, Savable, Serves, Sha256Spec.Sha256Hex;
    BeginsWithSource(cfg, s, events);
    SourceLength(cfg);
    LengthBound(cfg, s, events);
    var t := Exec(cfg, s, events);
    if AtComparison(t) || t.process.Finished? {
      SameLength(cfg.source, t.disk.output.value);
    }
  }

  /** A start without a checkpoint to go by trusts nothing. */
  lemma UnmatchedIsAdmissible(cfg: Config, s: State, events: seq<Event>)
    requires Unmatched(cfg, s)
    ensures Admissible(cfg, s, events)
  {
    hide Unmatched, Trustworthy, Savable;
    UnmatchedIsTrustworthy(cfg, s, events);
  }

  // ---------------------------------------------------------------- any sender

  /**
   * The byte count that the receiver announces on success without having counted:
   * whoever sends, and even if saves are cut short, an output that is compared has
   * exactly the announced size, if the chunk count did not wrap.
   */
  lemma ByteCount(cfg: Config, s: State, events: seq<Event>)
    requires Planned(cfg.manifest) && Unmatched(cfg, s) && OutputLength(s.disk) <= cfg.manifest.fileSize
    ensures var t := Exec(cfg, s, events);
            AtComparison(t) || t.process.Finished? ==> OutputLength(t.disk) == cfg.manifest.fileSize
  {
    hide Planned, Exec, Resume, DiskInv;
    PlannedIsCounted(cfg);
    LengthBound(cfg, s, events);
    HistoryInv(cfg, s, events, false);
    var t := Exec(cfg, s, events);
    var k: nat :| ProcessInv(cfg, t.disk, t.process, k, false);
    if AtComparison(t) {
      NothingLeft(cfg, t.disk, t.process, k, false);
    }
  }

  lemma PlannedIsCounted(cfg: Config)
    requires Planned(cfg.manifest)
    ensures Counted(cfg.manifest)
  {
  }
}
