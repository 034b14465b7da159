/**
 * Conservation across runs. When runs stop only because the connection is lost
 * and saves succeed, nothing is requested twice: what a run accepted and what the
 * next one requests make up the list that was requested before.
 */
module TransferConservation {
  import opened Base
  import opened Indexes
  import opened Chunks
  import opened Checkpoint
  import opened Transfer
  import opened TransferAnySender
  import opened TransferShape
  import Sha256Spec

  /** Stops at the socket calls only, whole writes and saves, no other sender, no new transfer after a completed one. */
  predicate Orderly(s: State, e: Event) {
    match e
    case Stop => s.process.Idle? || s.process.Connected? || s.process.Receiving?
    case TornWrite(_) => false
    case ShortTemp(_) => false
    case ForeignChunk(_) => false
    case ForeignTorn(_, _) => false
    case ForeignDigest(_, _) => false
    case Begin => !s.process.Finished?
    case _ => true
  }

  predicate OrderlyHistory(cfg: Config, s: State, events: seq<Event>)
    decreases |events|
  {
    events == [] || (Orderly(s, events[0]) && OrderlyHistory(cfg, Step(cfg, s, events[0]), events[1..]))
  }

  /** The indexes accepted, in order. */
  function Accepts(ledger: seq<Entry>): seq<u64> {
    if ledger == [] then []
    else
      var last, before := ledger[|ledger| - 1], Accepts(ledger[..|ledger| - 1]);
      if last.Accepted? then before + [last.index] else before
  }

  /** Entry `i`, if it is a request, lists the chunks after those accepted before it. */
  ghost predicate RequestFollows(ledger: seq<Entry>, n: u64, i: nat)
    requires i < |ledger|
  {
    ledger[i].Requested? ==>
      |Accepts(ledger[..i])| <= n && ledger[i].indexes == Range(|Accepts(ledger[..i])|, n)
  }

  /** Every request does, and chunks are accepted in order. */
  ghost predicate Balanced(ledger: seq<Entry>, n: u64) {
    |Accepts(ledger)| <= n && Accepts(ledger) == Range(0, |Accepts(ledger)|) &&
    forall i :: 0 <= i < |ledger| ==> RequestFollows(ledger, n, i)
  }

  lemma AcceptsAppend(ledger: seq<Entry>, e: Entry)
    ensures Accepts(ledger + [e]) == if e.Accepted? then Accepts(ledger) + [e.index] else Accepts(ledger)
  {
    assert (ledger + [e])[..|ledger|] == ledger;
  }

  lemma BalancedAppend(ledger: seq<Entry>, n: u64, e: Entry)
    requires Balanced(ledger, n)
    requires var k := |Accepts(ledger)|;
             match e case Requested(xs) => xs == Range(k, n) case Accepted(i) => i == k < n
    ensures Balanced(ledger + [e], n)
  {
    hide Accepts, RequestFollows;
    var l, k := ledger + [e], |Accepts(ledger)|;
    AcceptsAppend(ledger, e);
    assert e.Accepted? ==> Range(0, k + 1) == Range(0, k) + [k];
    forall i | 0 <= i < |l|
      ensures RequestFollows(l, n, i)
    {
      FollowsAppend(ledger, n, e, i);
    }
  }

  lemma FollowsAppend(ledger: seq<Entry>, n: u64, e: Entry, i: nat)
    requires i <= |ledger|
    requires if i < |ledger| then RequestFollows(ledger, n, i)
             else e.Requested? ==> |Accepts(ledger)| <= n && e.indexes == Range(|Accepts(ledger)|, n)
    ensures RequestFollows(ledger + [e], n, i)
  {
    hide Accepts;
    assert (ledger + [e])[..i] == ledger[..i];
    assert ledger[..|ledger|] == ledger;
  }

  /** The ledger agrees with the disk and the program: `k` chunks accepted are `k` chunks recorded. */
  ghost predicate LedgerInv(cfg: Config, s: State) {
    var k := |Accepts(s.ledger)|;
    Balanced(s.ledger, cfg.manifest.chunkCount) && DiskInv(cfg, s.disk, true) &&
    ProcessInv(cfg, s.disk, s.process, k, true) && Texts(s.disk, s.process, true) &&
    match s.process
    case Idle => Resume(cfg, s.disk).0 == FirstChunks(cfg, k)
    case Connected(c, _) => Resume(cfg, s.disk).0 == c
    case Finished(_) => k == cfg.manifest.chunkCount
    case _ => true
  }

  lemma StepBalances(cfg: Config, s: State, e: Event)
    requires Fit(cfg, true) && '\n' !in cfg.manifest.filename && LedgerInv(cfg, s) && Orderly(s, e)
    ensures LedgerInv(cfg, Step(cfg, s, e))
  {
    hide Render, Load, Fit, Sha256Spec.Sha256Hex, Payload, SaveStep, ChunkStep, DigestStep, Serves, Resume, Missing,
      Balanced, Records, AfterInv, DiskInv;
    var p, k := s.process, |Accepts(s.ledger)|;
    StepKeepsTexts(cfg, s, e, true);
    if e == Stop {
      StopBalances(cfg, s);
    } else {
      match p
      case Idle =>
        BeginBalances(cfg, s, e);
      case Finished(_) =>
      case Connected(c, afresh) =>
        RequestBalances(cfg, s, e);
      case Saving(_, _, _, _) =>
        SaveKeepsSegment(cfg, s.disk, p, k, e, true);
        SaveStaysActive(s.disk, p, e);
      case Preparing(c, afresh, request) =>
        PrepareKeepsSegment(cfg, s.disk, p, k, true);
      case Receiving(_, todo, request) =>
        if todo == [] {
          DigestBalances(cfg, s, e);
        } else {
          ChunkBalances(cfg, s, e);
        }
    }
  }

  lemma StopBalances(cfg: Config, s: State)
    requires Fit(cfg, true) && '\n' !in cfg.manifest.filename && LedgerInv(cfg, s) && Orderly(s, Stop)
    ensures LedgerInv(cfg, Step(cfg, s, Stop))
  {
    hide Render, Load, Fit, Balanced, DiskInv, Covered, Resume;
    var p, k := s.process, |Accepts(s.ledger)|;
    if p.Receiving? {
      MissingAfter(cfg, k);
      SavedIsResumed(cfg, s.disk, p.cp);
    }
  }

  lemma BeginBalances(cfg: Config, s: State, e: Event)
    requires Fit(cfg, true) && LedgerInv(cfg, s) && s.process.Idle?
    ensures LedgerInv(cfg, BeginStep(cfg, s, e))
  {
    hide Render, Load, Fit, Balanced, DiskInv, Covered, Resume, FirstChunks;
    if e == Begin {
      var (c, afresh) := Resume(cfg, s.disk);
      var k := ResumeRecords(cfg, s.disk, true);
      AcceptsInOrder(s.ledger, cfg.manifest.chunkCount);
      SameChunks(cfg, k, |Accepts(s.ledger)|);
    }
  }

  lemma SameChunks(cfg: Config, k: nat, k': nat)
    requires k <= cfg.manifest.chunkCount && k' <= cfg.manifest.chunkCount
    requires FirstChunks(cfg, k) == FirstChunks(cfg, k')
    ensures k == k'
  {
    assert Below(k) == Below(k');
    assert k in Below(k') <==> k < k';
    assert k' in Below(k) <==> k' < k;
  }

  lemma RequestBalances(cfg: Config, s: State, e: Event)
    requires LedgerInv(cfg, s) && s.process.Connected?
    ensures e != Stop ==> LedgerInv(cfg, Step(cfg, s, e))
  {
    hide Render, Load, Balanced, DiskInv, Covered, Resume, Missing;
    var p, k := s.process, |Accepts(s.ledger)|;
    if e == SendRequest {
      MissingAfter(cfg, k);
      ConnectedKeepsSegment(cfg, s.disk, p.cp, p.afresh, k, true);
      BalancedAppend(s.ledger, cfg.manifest.chunkCount, Requested(Missing(p.cp)));
      AcceptsAppend(s.ledger, Requested(Missing(p.cp)));
    }
  }

  lemma SaveStaysActive(d: Disk, p: Process, e: Event)
    requires p.Saving?
    ensures var p' := SaveStep(d, p, e).1; p'.Saving? || p'.Preparing? || p'.Receiving?
  {
    hide Render;
  }

  lemma DigestBalances(cfg: Config, s: State, e: Event)
    requires Fit(cfg, true) && LedgerInv(cfg, s) && s.process.Receiving? && s.process.todo == [] && !Foreign(e)
    ensures LedgerInv(cfg, DigestStep(cfg, s, e))
  {
    hide Render, Balanced, Fit, Sha256Spec.Sha256Hex, Covered, FirstChunks, Serves, Resume;
    var k := |Accepts(s.ledger)|;
    CompareKeepsSegment(cfg, s, k, e, true);
  }

  lemma ChunkBalances(cfg: Config, s: State, e: Event)
    requires Fit(cfg, true) && LedgerInv(cfg, s) && s.process.Receiving? && s.process.todo != []
    requires !e.TornWrite? && !Foreign(e)
    ensures LedgerInv(cfg, ChunkStep(cfg, s, e))
  {
    hide Render, Balanced, Fit, Payload, Covered, DiskInv, ByteOffset, Serves;
    var k := |Accepts(s.ledger)|;
    ChunkKeepsSegment(cfg, s, k, e, true);
    if e == AcceptChunk {
      RangeStep(k, cfg.manifest.chunkCount);
      BalancedAppend(s.ledger, cfg.manifest.chunkCount, Accepted(k));
      AcceptsAppend(s.ledger, Accepted(k));
    }
  }

  lemma {:induction false} HistoryBalances(cfg: Config, s: State, events: seq<Event>)
    requires Fit(cfg, true) && '\n' !in cfg.manifest.filename && LedgerInv(cfg, s) && OrderlyHistory(cfg, s, events)
    ensures LedgerInv(cfg, Exec(cfg, s, events))
    decreases |events|
  {
    hide LedgerInv, Step, Orderly, Fit;
    if events != [] {
      StepBalances(cfg, s, events[0]);
      HistoryBalances(cfg, Step(cfg, s, events[0]), events[1..]);
    }
  }

  // ---------------------------------------------------------------- the theorem

  lemma NoAccepts(ledger: seq<Entry>)
    requires ledger == []
    ensures Accepts(ledger) == []
  {
  }

  lemma {:induction false} AcceptsConcat(a: seq<Entry>, b: seq<Entry>)
    ensures Accepts(a + b) == Accepts(a) + Accepts(b)
    decreases |b|
  {
    hide Accepts;
    if b == [] {
      assert a + b == a;
      NoAccepts(b);
    } else {
      var init, last := b[..|b| - 1], b[|b| - 1];
      AcceptsConcat(a, init);
      AcceptsAppend(a + init, last);
      AcceptsAppend(init, last);
      assert a + b == a + init + [last] && b == init + [last];
    }
  }

  /** Between two requests, what was accepted is exactly what the later request no longer lists. */
  lemma RequestsShrink(ledger: seq<Entry>, n: u64, i: nat, j: nat)
    requires Balanced(ledger, n) && i <= j < |ledger| && ledger[i].Requested? && ledger[j].Requested?
    ensures ledger[i].indexes == Accepts(ledger[i..j]) + ledger[j].indexes
  {
    hide Accepts;
    var a, b, rest := ledger[..i], ledger[i..j], ledger[j..];
    assert ledger[..j] == a + b && ledger == a + b + rest;
    AcceptsConcat(a, b);
    AcceptsConcat(a + b, rest);
    assert RequestFollows(ledger, n, i) && RequestFollows(ledger, n, j);
    var p, q := |Accepts(a)|, |Accepts(a + b)|;
    assert Accepts(b) == Accepts(ledger)[p..q];
    RangeSplit(p, q, n, |Accepts(ledger)|);
  }

  lemma RangeSplit(p: nat, q: nat, n: u64, k: nat)
    requires p <= q <= n && q <= k <= n
    ensures Range(p, n) == Range(0, k)[p..q] + Range(q, n)
  {
  }

  /**
   * Conservation: in every orderly history each run requests exactly the previous
   * run's list without the chunks accepted since, and a completed history accepted
   * every chunk exactly once, in order. The name must not contain a newline, since
   * its checkpoint would not load.
   */
  lemma Conservation(cfg: Config, s: State, events: seq<Event>)
    requires Consistent(cfg) && Unmatched(cfg, s) && OrderlyHistory(cfg, s, events)
    requires '\n' !in cfg.manifest.filename
    ensures var t := Exec(cfg, s, events);
            forall i, j :: 0 <= i <= j < |t.ledger| && t.ledger[i].Requested? && t.ledger[j].Requested? ==>
              t.ledger[i].indexes == Accepts(t.ledger[i..j]) + t.ledger[j].indexes
    ensures var t := Exec(cfg, s, events);
            t.process.Finished? ==> Accepts(t.ledger) == Range(0, cfg.manifest.chunkCount)
  {
    hide Consistent, Fit, Exec, OrderlyHistory, Render, Load, Balanced;
    ConsistentFits(cfg);
    InitiallyBalanced(cfg, s);
    HistoryBalances(cfg, s, events);
    var t := Exec(cfg, s, events);
    forall i, j | 0 <= i <= j < |t.ledger| && t.ledger[i].Requested? && t.ledger[j].Requested?
      ensures t.ledger[i].indexes == Accepts(t.ledger[i..j]) + t.ledger[j].indexes
    {
      RequestsShrink(t.ledger, cfg.manifest.chunkCount, i, j);
    }
    if t.process.Finished? {
      AcceptsInOrder(t.ledger, cfg.manifest.chunkCount);
    }
  }

  lemma AcceptsInOrder(ledger: seq<Entry>, n: u64)
    requires Balanced(ledger, n)
    ensures |Accepts(ledger)| <= n && Accepts(ledger) == Range(0, |Accepts(ledger)|)
  {
  }

  lemma InitiallyBalanced(cfg: Config, s: State)
    requires Unmatched(cfg, s)
    ensures LedgerInv(cfg, s)
  {
    hide Load;
    assert Below(0) == {} && Accepts(s.ledger) == [];
  }
}
