/** The discovery announcement (src/discovery/discovery_message.cpp, apps/broadcaster.cpp). */
module Discovery {
  import opened Base
  import opened Protocol
  import opened Text

  const MARKER: string := "PACKETBRIDGE_DISCOVER"

  /** Times are nanoseconds of a steady clock. */
  datatype Peer = Peer(name: string, ipAddress: string, transferPort: u16, lastSeen: int, protocolVersion: u16)

  predicate IsValidPeerName(name: string) {
    name != "" && |name| <= MAX_PEER_NAME_LENGTH && '|' !in name
  }

  function Build(name: string, port: u16): string {
    MARKER + "|" + (Decimal(PROTOCOL_VERSION) + "|" + (name + "|" + Decimal(port)))
  }

  /** Digits only, and within the range of std::stoul. */
  function ParseUnsigned(value: string): Option<nat> {
    if value == "" || !AllDigits(value) || Value(value) >= TWO_64 then None else Some(Value(value))
  }

  function ParseParts(parts: seq<string>, senderIp: string, now: int): Option<Peer> {
    if |parts| != 4 || parts[0] != MARKER then None
    else
      var version, port := ParseUnsigned(parts[1]), ParseUnsigned(parts[3]);
      if version != Some(PROTOCOL_VERSION) || !IsValidPeerName(parts[2]) || port.None? ||
         port.value == 0 || port.value > 65535 then None
      else Some(Peer(parts[2], senderIp, port.value, now, PROTOCOL_VERSION))
  }

  /** parse_discovery_message; `now` is the clock as the parser reads it. */
  function Parse(message: string, senderIp: string, now: int): Option<Peer> {
    ParseParts(Split(message, '|'), senderIp, now)
  }

  function SafePeerName(requested: string): string {
    if requested == "" || '|' in requested then "packetbridge-node"
    else if |requested| > MAX_PEER_NAME_LENGTH then requested[..MAX_PEER_NAME_LENGTH]
    else requested
  }

  lemma SafeNameIsValid(requested: string)
    ensures IsValidPeerName(SafePeerName(requested))
  {
  }

  // ---------------------------------------------------------------- round trip

  lemma ParseUnsignedDecimal(n: u64)
    ensures ParseUnsigned(Decimal(n)) == Some(n)
  {
    ValueOfDecimal(n);
  }

  lemma DecimalHasNoBar(n: nat)
    ensures '|' !in Decimal(n)
  {
  }

  lemma SplitBuilt(name: string, port: u16)
    ensures Split(Build(name, port), '|') ==
            [MARKER, Decimal(PROTOCOL_VERSION)] + Split(name + "|" + Decimal(port), '|')
  {
    hide Decimal, Split;
    DecimalHasNoBar(PROTOCOL_VERSION);
    var tail := name + "|" + Decimal(port);
    SplitFirst(MARKER, '|', Decimal(PROTOCOL_VERSION) + "|" + tail);
    SplitFirst(Decimal(PROTOCOL_VERSION), '|', tail);
  }

  /** A delimiter with something after it makes two parts or more, three if there was one before. */
  lemma {:induction false} SplitCount(s: string, d: char, t: string)
    requires t != []
    ensures |Split(s + [d] + t, d)| >= if d in s then 3 else 2
    decreases |s|
  {
    hide Split;
    if d in s {
      var i := Find(s, d);
      assert s == s[..i] + [d] + s[i + 1..];
      var rest := s[i + 1..] + [d] + t;
      assert s + [d] + t == s[..i] + [d] + rest;
      SplitFirst(s[..i], d, rest);
      SplitCount(s[i + 1..], d, t);
    } else {
      SplitFirst(s, d, t);
      SplitStep(t, d);
    }
  }

  /** Parsing undoes building exactly for valid names and ports; every other announcement is refused. */
  lemma BuildParse(name: string, port: u16, senderIp: string, now: int)
    ensures Parse(Build(name, port), senderIp, now) ==
            if IsValidPeerName(name) && port > 0 then Some(Peer(name, senderIp, port, now, PROTOCOL_VERSION)) else None
  {
    hide Decimal, Split, ParseUnsigned;
    SplitBuilt(name, port);
    SplitCount(name, '|', Decimal(port));
    if '|' !in name {
      DecimalHasNoBar(port);
      SplitFirst(name, '|', Decimal(port));
      SplitLast(Decimal(port), '|');
      ParseUnsignedDecimal(PROTOCOL_VERSION);
      ParseUnsignedDecimal(port);
    }
  }

  /** What the broadcaster announces, the listener accepts, whatever name was asked for. */
  lemma AnnouncementAccepted(requested: string, port: u16, senderIp: string, now: int)
    requires port > 0
    ensures Parse(Build(SafePeerName(requested), port), senderIp, now) ==
            Some(Peer(SafePeerName(requested), senderIp, port, now, PROTOCOL_VERSION))
  {
    hide SafePeerName, Build, Parse;
    SafeNameIsValid(requested);
    BuildParse(SafePeerName(requested), port, senderIp, now);
  }

  /** Every accepted message, however written, has a normal form that parses to the same peer. */
  lemma NormalForm(message: string, senderIp: string, now: int)
    requires Parse(message, senderIp, now).Some?
    ensures var peer := Parse(message, senderIp, now).value;
            peer.protocolVersion == PROTOCOL_VERSION &&
            Parse(Build(peer.name, peer.transferPort), senderIp, now) == Some(peer)
  {
    hide Split, ParseUnsigned, Build;
    var peer := Parse(message, senderIp, now).value;
    BuildParse(peer.name, peer.transferPort, senderIp, now);
  }

  // ---------------------------------------------------------------- the program

  method SplitMessage(message: string) returns (parts: seq<string>)
    ensures parts == Split(message, '|')
  {
    hide Find;
    parts := [];
    var rest := message;
    while rest != []
      invariant parts + Split(rest, '|') == Split(message, '|')
      decreases |rest|
    {
      parts := parts + [Line(rest, '|')];
      rest := AfterLine(rest, '|');
    }
  }

  method ParseNumber(value: string) returns (n: Option<nat>)
    ensures n == ParseUnsigned(value)
  {
    hide Value;
    if value == "" {
      return None;
    }
    for i := 0 to |value|
      invariant forall j :: 0 <= j < i ==> IsDigit(value[j])
    {
      if !IsDigit(value[i]) {
        return None;
      }
    }
    return if Value(value) >= TWO_64 then None else Some(Value(value));
  }

  method ParseMessage(message: string, senderIp: string, now: int) returns (peer: Option<Peer>)
    ensures peer == Parse(message, senderIp, now)
  {
    hide Split, ParseUnsigned;
    var parts := SplitMessage(message);
    if |parts| != 4 || parts[0] != MARKER {
      return None;
    }
    var version := ParseNumber(parts[1]);
    if version != Some(PROTOCOL_VERSION) {
      return None;
    }
    if !IsValidPeerName(parts[2]) {
      return None;
    }
    var port := ParseNumber(parts[3]);
    if port.None? || port.value == 0 || port.value > 65535 {
      return None;
    }
    return Some(Peer(parts[2], senderIp, port.value, now, PROTOCOL_VERSION));
  }

  // ---------------------------------------------------------------- messages as text

  /** An announcement as it is sent. */
  lemma BuildsText(name: string, port: u16)
    ensures Build(name, port) == "PACKETBRIDGE_DISCOVER|1|" + name + "|" + Decimal(port)
  {
    assert Decimal(PROTOCOL_VERSION) == "1";
    var tail := name + "|" + Decimal(port);
    assert MARKER + "|" + ("1" + "|" + tail) == "PACKETBRIDGE_DISCOVER|1|" + tail;
  }

  /** Digits whose value is `n`. */
  predicate Writes(s: string, n: nat) {
    s != "" && AllDigits(s) && Value(s) == n
  }

  /**
   * Four fields between bars are accepted exactly if they are the marker, the number 1, a
   * name of 1 to 64 characters and a number from 1 to 65535; each number in any spelling
   * with digits only. The peer has that name and port, the sender's address and the time.
   */
  lemma ParsesExactly(marker: string, version: string, name: string, port: string, senderIp: string, now: int)
    requires '|' !in marker && '|' !in version && '|' !in name && '|' !in port && port != ""
    ensures var r := Parse(marker + "|" + (version + "|" + (name + "|" + port)), senderIp, now);
            (r.Some? <==>
               marker == "PACKETBRIDGE_DISCOVER" && Writes(version, 1) && 1 <= |name| <= 64 &&
               exists n :: 1 <= n <= 65535 && Writes(port, n)) &&
            (r.Some? ==>
               r.value.name == name && r.value.ipAddress == senderIp && r.value.lastSeen == now &&
               r.value.protocolVersion == 1 && Writes(port, r.value.transferPort))
  {
    hide Split, Value, AllDigits;
    SplitFirst(marker, '|', version + "|" + (name + "|" + port));
    SplitFirst(version, '|', name + "|" + port);
    SplitFirst(name, '|', port);
    SplitLast(port, '|');
    if AllDigits(port) {
      assert Writes(port, Value(port));
    }
  }

  /** A message without exactly four parts is refused. */
  lemma OtherPartsRefused(message: string, senderIp: string, now: int)
    ensures |Split(message, '|')| != 4 ==> Parse(message, senderIp, now) == None
  {
  }

  /** The name that is announced: the one asked for, cut to 64 characters, or a default for one that cannot be sent. */
  lemma SafePeerNameExactly(requested: string)
    ensures var r := SafePeerName(requested);
            if requested == "" || '|' in requested then r == "packetbridge-node"
            else if |requested| <= 64 then r == requested
            else |r| == 64 && r <= requested
  {
  }
}
