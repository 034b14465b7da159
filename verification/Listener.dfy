/** The table of live peers that the listener prunes as it goes (apps/listener.cpp). */
module Listener {
  import opened Base
  import opened Text
  import opened Discovery

  /** Ten seconds, in nanoseconds. */
  const STALE_AFTER: int := 10_000_000_000

  function PeerKey(ip: string, port: u16): string {
    ip + ":" + Decimal(port)
  }

  /** The port has no colon, so an address and a port can be told from their key, even an IPv6 address. */
  lemma PeerKeyInjective(ip: string, port: u16, ip': string, port': u16)
    requires PeerKey(ip, port) == PeerKey(ip', port')
    ensures ip == ip' && port == port'
  {
    hide Decimal;
    var k, d, d' := PeerKey(ip, port), Decimal(port), Decimal(port');
    assert k[|ip|] == ':' && k[|ip'|] == ':';
    assert forall i :: |ip| < i < |k| ==> IsDigit(k[i]);
    assert forall i :: |ip'| < i < |k| ==> IsDigit(k[i]);
    assert k[|k| - |d|..] == d && k[|k| - |d'|..] == d';
    DecimalInjective(port, port');
    assert k[..|ip|] == ip && k[..|ip'|] == ip';
  }

  predicate LooksLikeLoopback(ip: string) {
    ip == "127.0.0.1" || ip == "::1"
  }

  /** One pass of the main loop: a datagram or a timeout, the clock after receiving, the clock while parsing. */
  datatype Tick = Tick(datagram: Option<(string, string)>, now: int, parsed: int)

  /** The announcement of a pass, accepted or not. */
  function Announced(t: Tick): Option<Peer> {
    if t.datagram.None? then None else Parse(t.datagram.value.0, t.datagram.value.1, t.parsed)
  }

  predicate IsSelf(hostname: string, p: Peer) {
    hostname != "" && p.name == hostname && LooksLikeLoopback(p.ipAddress)
  }

  /** A pass that only hears the machine itself skips the rest of the loop, pruning included. */
  predicate Skips(hostname: string, t: Tick) {
    Announced(t).Some? && IsSelf(hostname, Announced(t).value)
  }

  // ---------------------------------------------------------------- the reference

  /** The latest accepted announcement of an address and port by anyone but the machine itself. */
  function Latest(hostname: string, history: seq<Tick>, ip: string, port: u16): Option<Peer> {
    if history == [] then None
    else
      var p := Announced(history[|history| - 1]);
      if p.Some? && !IsSelf(hostname, p.value) && p.value.ipAddress == ip && p.value.transferPort == port then p
      else Latest(hostname, history[..|history| - 1], ip, port)
  }

  /** The table as a function of the history: the latest announcements that are not older than ten seconds. */
  ghost predicate IsTable(peers: map<string, Peer>, hostname: string, history: seq<Tick>, now: int) {
    (forall ip, port :: (PeerKey(ip, port) in peers <==>
       Latest(hostname, history, ip, port).Some? &&
       now - Latest(hostname, history, ip, port).value.lastSeen <= STALE_AFTER)) &&
    (forall ip, port :: PeerKey(ip, port) in peers ==>
       Latest(hostname, history, ip, port) == Some(peers[PeerKey(ip, port)])) &&
    (forall key :: key in peers ==> key == PeerKey(peers[key].ipAddress, peers[key].transferPort))
  }

  /** There is only one such table. */
  lemma TableUnique(a: map<string, Peer>, b: map<string, Peer>, hostname: string, history: seq<Tick>, now: int)
    requires IsTable(a, hostname, history, now) && IsTable(b, hostname, history, now)
    ensures a == b
  {
    hide PeerKey, Latest;
    assert forall key :: key in a ==> PeerKey(a[key].ipAddress, a[key].transferPort) in b;
    assert forall key :: key in b ==> PeerKey(b[key].ipAddress, b[key].transferPort) in a;
    assert a.Keys == b.Keys;
  }

  /** The clock does not go back. */
  predicate Monotone(history: seq<Tick>) {
    (forall i :: 0 <= i < |history| ==> history[i].now <= history[i].parsed) &&
    (forall i, j :: 0 <= i < j < |history| ==> history[i].parsed <= history[j].now)
  }

  // ---------------------------------------------------------------- how the table follows the reference

  /** An entry is the latest announcement, and what is missing was stale at the time of the last pruning. */
  ghost predicate Tracks(peers: map<string, Peer>, hostname: string, history: seq<Tick>, pruned: int) {
    (forall key :: key in peers ==>
       key == PeerKey(peers[key].ipAddress, peers[key].transferPort) &&
       Latest(hostname, history, peers[key].ipAddress, peers[key].transferPort) == Some(peers[key])) &&
    (forall ip, port :: Latest(hostname, history, ip, port).Some? && PeerKey(ip, port) !in peers ==>
       pruned - Latest(hostname, history, ip, port).value.lastSeen > STALE_AFTER)
  }

  lemma LatestAppend(hostname: string, history: seq<Tick>, t: Tick, ip: string, port: u16)
    ensures var p := Announced(t);
            Latest(hostname, history + [t], ip, port) ==
            if p.Some? && !IsSelf(hostname, p.value) && p.value.ipAddress == ip && p.value.transferPort == port then p
            else Latest(hostname, history, ip, port)
  {
    hide Announced, IsSelf;
    assert (history + [t])[..|history|] == history;
  }

  /** A pass without a foreign announcement, the skipping branch included, does no harm. */
  lemma QuietPassKeeps(peers: map<string, Peer>, hostname: string, history: seq<Tick>, pruned: int, t: Tick)
    requires Tracks(peers, hostname, history, pruned)
    requires Announced(t).None? || IsSelf(hostname, Announced(t).value)
    ensures Tracks(peers, hostname, history + [t], pruned)
  {
    hide Announced, IsSelf, PeerKey, Latest;
    forall ip, port
      ensures Latest(hostname, history + [t], ip, port) == Latest(hostname, history, ip, port)
    {
      LatestAppend(hostname, history, t, ip, port);
    }
  }

  lemma AnnouncementKeeps(peers: map<string, Peer>, hostname: string, history: seq<Tick>, pruned: int, t: Tick, p: Peer)
    requires Tracks(peers, hostname, history, pruned)
    requires Announced(t) == Some(p) && !IsSelf(hostname, p)
    ensures Tracks(peers[PeerKey(p.ipAddress, p.transferPort) := p], hostname, history + [t], pruned)
  {
    hide Announced, IsSelf, PeerKey, Latest;
    var peers' := peers[PeerKey(p.ipAddress, p.transferPort) := p];
    forall key | key in peers'
      ensures key == PeerKey(peers'[key].ipAddress, peers'[key].transferPort)
      ensures Latest(hostname, history + [t], peers'[key].ipAddress, peers'[key].transferPort) == Some(peers'[key])
    {
      LatestAppend(hostname, history, t, peers'[key].ipAddress, peers'[key].transferPort);
    }
    forall ip, port | Latest(hostname, history + [t], ip, port).Some? && PeerKey(ip, port) !in peers'
      ensures pruned - Latest(hostname, history + [t], ip, port).value.lastSeen > STALE_AFTER
    {
      LatestAppend(hostname, history, t, ip, port);
    }
  }

  /** `kept` is what is left of `peers` after pruning at `now`. */
  ghost predicate Pruned(peers: map<string, Peer>, kept: map<string, Peer>, now: int) {
    (forall key :: key in kept <==> key in peers && now - peers[key].lastSeen <= STALE_AFTER) &&
    (forall key :: key in kept ==> kept[key] == peers[key])
  }

  /** An entry is found under its own address and port only. */
  lemma EntryIsLatest(peers: map<string, Peer>, hostname: string, history: seq<Tick>, pruned: int,
                      ip: string, port: u16)
    requires Tracks(peers, hostname, history, pruned) && PeerKey(ip, port) in peers
    ensures Latest(hostname, history, ip, port) == Some(peers[PeerKey(ip, port)])
  {
    hide PeerKey, Latest;
    var p := peers[PeerKey(ip, port)];
    PeerKeyInjective(ip, port, p.ipAddress, p.transferPort);
  }

  lemma PruningKeeps(peers: map<string, Peer>, kept: map<string, Peer>, hostname: string, history: seq<Tick>,
                     pruned: int, now: int)
    requires Tracks(peers, hostname, history, pruned) && pruned <= now && Pruned(peers, kept, now)
    ensures Tracks(kept, hostname, history, now) && IsTable(kept, hostname, history, now)
  {
    hide PeerKey, Latest;
    forall ip, port
      ensures PeerKey(ip, port) in kept ==> Latest(hostname, history, ip, port) == Some(kept[PeerKey(ip, port)])
      ensures PeerKey(ip, port) in kept <==>
              Latest(hostname, history, ip, port).Some? &&
              now - Latest(hostname, history, ip, port).value.lastSeen <= STALE_AFTER
    {
      if PeerKey(ip, port) in peers {
        EntryIsLatest(peers, hostname, history, pruned, ip, port);
      }
    }
  }

  // ---------------------------------------------------------------- who is listed

  /** This machine hears itself: its own name from a loopback address. */
  predicate HearsItself(hostname: string, name: string, ip: string) {
    hostname != "" && name == hostname && (ip == "127.0.0.1" || ip == "::1")
  }

  /**
   * A valid announcement becomes the latest one of its address and port, with its name
   * and the time of the pass, unless the machine hears itself; then the pass is skipped.
   */
  lemma AnnouncementIsListed(hostname: string, history: seq<Tick>, t: Tick, name: string, ip: string, port: u16)
    requires t.datagram == Some((Build(name, port), ip)) && 1 <= |name| <= 64 && '|' !in name && port > 0
    ensures Skips(hostname, t) <==> HearsItself(hostname, name, ip)
    ensures Latest(hostname, history + [t], ip, port) ==
            if HearsItself(hostname, name, ip) then Latest(hostname, history, ip, port)
            else Some(Peer(name, ip, port, t.parsed, 1))
  {
    hide Build, Parse, Latest;
    BuildParse(name, port, ip, t.parsed);
    LatestAppend(hostname, history, t, ip, port);
  }

  /** An announcement that is listed leaves every other address and port alone, and a refused one leaves all. */
  lemma OthersKept(hostname: string, history: seq<Tick>, t: Tick, ip: string, port: u16)
    requires t.datagram.Some? ==>
               (Parse(t.datagram.value.0, t.datagram.value.1, t.parsed).None? || t.datagram.value.1 != ip ||
                Parse(t.datagram.value.0, t.datagram.value.1, t.parsed).value.transferPort != port)
    ensures Latest(hostname, history + [t], ip, port) == Latest(hostname, history, ip, port)
  {
    hide Parse, Latest;
    if t.datagram.Some? {
      SenderIsAddress(t.datagram.value.0, t.datagram.value.1, t.parsed);
    }
    LatestAppend(hostname, history, t, ip, port);
  }

  lemma SenderIsAddress(message: string, ip: string, now: int)
    ensures Parse(message, ip, now).Some? ==> Parse(message, ip, now).value.ipAddress == ip
  {
    hide Split, ParseUnsigned;
  }

  /** A table lists exactly the peers that were heard within the last ten seconds, under address and port. */
  lemma ListedForTenSeconds(peers: map<string, Peer>, hostname: string, history: seq<Tick>, now: int,
                            ip: string, port: u16)
    requires IsTable(peers, hostname, history, now)
    ensures var latest := Latest(hostname, history, ip, port);
            (ip + ":" + Decimal(port) in peers <==>
               latest.Some? && now - latest.value.lastSeen <= 10 * 1_000_000_000) &&
            (ip + ":" + Decimal(port) in peers ==> latest == Some(peers[ip + ":" + Decimal(port)]))
  {
    hide Latest, Decimal;
    assert PeerKey(ip, port) == ip + ":" + Decimal(port);
  }

  // ---------------------------------------------------------------- the program

  class Listener {
    const hostname: string
    var peers: map<string, Peer>
    ghost const started: int
    ghost var history: seq<Tick>
    /** The time of the last pruning, or of the start. */
    ghost var pruned: int

    ghost predicate Valid()
      reads this
    {
      Tracks(peers, hostname, history, pruned) &&
      (pruned == started || exists i :: 0 <= i < |history| && pruned == history[i].now)
    }

    constructor (hostname: string, ghost started: int)
      ensures Valid() && history == [] && peers == map[] && this.hostname == hostname && this.started == started
    {
      this.hostname, this.started := hostname, started;
      peers, history, pruned := map[], [], started;
    }

    /** remove_stale_peers: walk the table and erase. */
    method RemoveStalePeers(now: int)
      modifies `peers
      ensures Pruned(old(peers), peers, now)
    {
      var rest := peers.Keys;
      while rest != {}
        invariant rest <= peers.Keys <= old(peers).Keys
        invariant forall key :: key in peers ==> peers[key] == old(peers)[key]
        invariant forall key :: key in old(peers) && key !in rest ==>
                    (key in peers <==> now - old(peers)[key].lastSeen <= STALE_AFTER)
        decreases rest
      {
        var key :| key in rest;
        if now - peers[key].lastSeen > STALE_AFTER {
          peers := peers - {key};
        }
        rest := rest - {key};
      }
    }

    /**
     * One pass of the loop. After a pass that prunes, the table is the reference
     * table of the whole history; a pass that skips leaves it as it was.
     */
    method Pass(t: Tick)
      requires Valid() && started <= t.now && Monotone(history + [t])
      modifies `peers, `history, `pruned
      ensures Valid() && history == old(history) + [t]
      ensures Skips(hostname, t) ==> peers == old(peers)
      ensures !Skips(hostname, t) ==> IsTable(peers, hostname, history, t.now)
    {
      hide Parse, PeerKey, IsSelf, Latest, Tracks, Pruned, IsTable;
      ghost var all := history + [t];
      assert pruned <= t.now by {
        if pruned != started {
          var i :| 0 <= i < |history| && pruned == history[i].now;
          assert all[i] == history[i] && all[|history|] == t;
        }
      }
      assert forall i :: 0 <= i < |history| ==> all[i] == history[i];
      var parsed: Option<Peer> := None;
      if t.datagram.Some? {
        parsed := ParseMessage(t.datagram.value.0, t.datagram.value.1, t.parsed);
      }
      if parsed.Some? && IsSelf(hostname, parsed.value) {
        QuietPassKeeps(peers, hostname, history, pruned, t);
        history := all;
        return;
      }
      if parsed.Some? {
        AnnouncementKeeps(peers, hostname, history, pruned, t, parsed.value);
        peers := peers[PeerKey(parsed.value.ipAddress, parsed.value.transferPort) := parsed.value];
      } else {
        QuietPassKeeps(peers, hostname, history, pruned, t);
      }
      history := all;
      ghost var before := peers;
      RemoveStalePeers(t.now);
      PruningKeeps(before, peers, hostname, history, pruned, t.now);
      pruned := t.now;
      assert all[|all| - 1].now == t.now;
    }
  }
}
