/**
 The packets octet by octet: what each one built looks like, and from which octets each one
 received means what.
 */
module Layouts {
  import opened Octets
  import opened Channel
  import opened Packets
  import opened Environment
  import opened Negotiation
  import opened Rendezvous
  import opened Turns

  /** Value of two octets, the higher first. */
  function Value(high: byte, low: byte): nat {
    256 * (high as int) + low as int
  }

  // ---------------------------------------------------------------------------------
  // What is built

  lemma PrefixPlus(a: bytes, b: bytes, c: bytes)
    ensures a + (b + c) == a + b + c
  {
  }

  lemma TwoAndTwo(a: byte, b: byte, c: byte, d: byte)
    ensures [a, b] + [c, d] == [a, b, c, d]
  {
  }

  /** A head, then the camera's identifier, and what belongs to the packet. */
  lemma NamedPackets(uid: bytes, local: bytes)
    ensures Punch(uid) == [0xF1, 0x41, 0x00, 0x14] + uid
    ensures Ready(uid) == [0xF1, 0x42, 0x00, 0x14] + uid
    ensures RelayListAsk(uid) == [0xF1, 0x67, 0x00, 0x14] + uid
    ensures Lookup(uid, local) == [0xF1, 0x20, 0x00, 0x24] + uid + local
  {
    PrefixPlus([0xF1, 0x41], [0x00, 0x14], uid);
    TwoAndTwo(0xF1, 0x41, 0x00, 0x14);
    PrefixPlus([0xF1, 0x42], [0x00, 0x14], uid);
    TwoAndTwo(0xF1, 0x42, 0x00, 0x14);
    PrefixPlus([0xF1, 0x67], [0x00, 0x14], uid);
    TwoAndTwo(0xF1, 0x67, 0x00, 0x14);
    PrefixPlus([0xF1, 0x20], [0x00, 0x24] + uid, local);
    PrefixPlus([0xF1, 0x20], [0x00, 0x24], uid);
    TwoAndTwo(0xF1, 0x20, 0x00, 0x24);
  }

  lemma RelayPackets(uid: bytes, address: bytes, token: bytes)
    ensures RelayRequest(uid, address, token) == [0xF1, 0x80, 0x00, 0x28] + uid + address + token
    ensures RelayPunch(uid, token) == [0xF1, 0x83, 0x00, 0x1C] + token + uid + [0x00, 0x00, 0x00, 0x00]
  {
    TwoAndTwo(0xF1, 0x80, 0x00, 0x28);
  }

  lemma BarePackets()
    ensures Bare(HELLO) == [0xF1, 0x00, 0x00, 0x00] && Bare(KNOCK) == [0xF1, 0x03, 0x00, 0x00]
    ensures Bare(READY_ACK) == [0xF1, 0x43, 0x00, 0x00]
    ensures Bare(RELAY_HELLO) == [0xF1, 0x70, 0x00, 0x00] && Bare(RELAY_PORT_ASK) == [0xF1, 0x72, 0x00, 0x00]
    ensures Bare(ALIVE) == [0xF1, 0xE0, 0x00, 0x00] && Bare(ALIVE_ACK) == [0xF1, 0xE1, 0x00, 0x00]
    ensures Bare(CLOSE) == [0xF1, 0xF0, 0x00, 0x00]
  {
  }

  lemma DataOctets(channel: nat, sequence: nat, chunk: bytes)
    requires channel < 8 && sequence < 0x1_0000 && |chunk| <= 1024
    ensures var n := 4 + |chunk|;
            DataPacket(channel, sequence, chunk) ==
            [0xF1, 0xD0, n / 256, n % 256, 0xD1, channel, sequence / 256, sequence % 256] + chunk
  {
    DataHead((4 + |chunk|) / 256, (4 + |chunk|) % 256, channel, sequence / 256, sequence % 256);
  }

  lemma DataHead(a: byte, b: byte, channel: byte, c: byte, d: byte)
    ensures DATA + [a, b] + [0xD1, channel] + [c, d] == [0xF1, 0xD0, a, b, 0xD1, channel, c, d]
  {
  }

  lemma AckOctets(channel: byte, high: byte, low: byte)
    ensures AckPacket(channel, high, low) == [0xF1, 0xD1, 0x00, 0x06, 0xD1, channel, 0x00, 0x01, high, low]
  {
  }

  // ---------------------------------------------------------------------------------
  // Data and acknowledgements

  lemma ParsedOctets(packet: bytes, c: nat, sequence: nat, body: bytes)
    ensures ParseData(packet) == Some(Frame(c, sequence, body)) <==>
            && |packet| >= 8 && Value(packet[2], packet[3]) == |packet| - 4
            && packet[4] == 0xD1 && c == packet[5] && c < 8
            && sequence == Value(packet[6], packet[7]) && body == packet[8..]
  {
  }

  predicate AckEntry(packet: bytes, n: nat, k: (nat, nat))
    requires |packet| >= 8 + 2 * n
  {
    exists i | 0 <= i < n :: k == (packet[5] as nat, Value(packet[8 + 2 * i], packet[9 + 2 * i]))
  }

  lemma {:induction false} AckEntries(packet: bytes, n: nat, k: (nat, nat))
    requires |packet| >= 8 + 2 * n
    ensures k in AckedAmong(packet, n) <==> AckEntry(packet, n, k)
  {
    if n > 0 {
      AckEntries(packet, n - 1, k);
      if k == (packet[5] as nat, Value(packet[6 + 2 * n], packet[7 + 2 * n])) {
        assert k == (packet[5] as nat, Value(packet[8 + 2 * (n - 1)], packet[9 + 2 * (n - 1)]));
      }
    }
  }

  /** An acknowledgement of up to 512 numbers, and of the size it announces, is of exactly those on its channel. */
  lemma AckedOctets(packet: bytes, k: (nat, nat))
    ensures k in AckedKeys(packet) <==>
            && |packet| >= 8 && packet[4] == 0xD1 && packet[5] < 8
            && var n := Value(packet[6], packet[7]);
               n <= 512 && |packet| == 8 + 2 * n && AckEntry(packet, n, k)
  {
    if AckCount(packet).Some? {
      AckEntries(packet, AckCount(packet).value, k);
    }
  }

  lemma KindOctets(packet: bytes, second: byte)
    ensures Kind(packet) == [0xF1, second] <==> |packet| >= 2 && packet[0] == 0xF1 && packet[1] == second
  {
    if |packet| >= 2 {
      assert packet[..2] == [packet[0], packet[1]];
    }
  }

  /** Only an acknowledgement from the peer's host, from whatever port, acknowledges. */
  lemma AckedByOctets(peer: Option<Address>, packet: bytes, from: Address, k: (nat, nat))
    ensures k in AckedBy(peer, Some((packet, from))) <==>
            && peer.Some? && peer.value.host == from.host
            && |packet| >= 2 && packet[0] == 0xF1 && packet[1] == 0xD1 && k in AckedKeys(packet)
  {
    KindOctets(packet, 0xD1);
  }

  /** Any packet from the peer's host counts as its own, whatever the port. */
  lemma PeerIsHost(host: bytes, port: nat, from: Address)
    ensures FromPeer(Some(Address(host, port)), from) <==> from.host == host
    ensures !FromPeer(None, from)
  {
  }

  /** What is answered on a connected session: who asks for life is told, a punch is met with readiness, readiness is acknowledged. */
  lemma ReplyOctets(uid: bytes, peer: Address, packet: bytes, from: Address)
    requires |packet| >= 4
    ensures packet[..2] == [0xF1, 0xE0] ==> Reply(uid, peer, packet, from) == [Out([0xF1, 0xE1, 0x00, 0x00], from)]
    ensures packet[..2] == [0xF1, 0x41] ==> Reply(uid, peer, packet, from) == [Out([0xF1, 0x42, 0x00, 0x14] + uid, from)]
    ensures packet[..2] == [0xF1, 0x42] ==> Reply(uid, peer, packet, from) == [Out([0xF1, 0x43, 0x00, 0x00], from)]
    ensures packet[..2] == [0xF1, 0xD0] && ParseData(packet).Some? ==>
              Reply(uid, peer, packet, from) ==
              [Out([0xF1, 0xD1, 0x00, 0x06, 0xD1, packet[5], 0x00, 0x01, packet[6], packet[7]], peer)]
    ensures Reply(uid, peer, packet, from) != [] ==>
              packet[0] == 0xF1 && packet[1] in {0xE0, 0x41, 0x42, 0xD0} && (packet[1] == 0xD0 ==> ParseData(packet).Some?)
  {
    assert packet[..2] == [packet[0], packet[1]];
    BarePackets();
    assert READY + [0x00, 0x14] == [0xF1, 0x42, 0x00, 0x14];
    if ParseData(packet).Some? {
      AckOctets(packet[5], packet[6], packet[7]);
    }
  }

  // ---------------------------------------------------------------------------------
  // Addresses

  /** Octets 0, 2, the port with the lower octet first, and the host backwards. */
  lemma AddressOctets(payload: bytes, a: Address)
    ensures DecodeAddress(payload) == Some(a) <==>
            && |payload| >= 16 && payload[0] == 0 && payload[1] == 2
            && a.port == Value(payload[3], payload[2]) && a.port != 0
            && a.host == [payload[7], payload[6], payload[5], payload[4]] && a.host != [0, 0, 0, 0]
  {
    if |payload| >= 16 {
      assert payload[..2] == [payload[0], payload[1]];
      assert payload[4..8] == [payload[4], payload[5], payload[6], payload[7]];
      assert Reversed4(payload[4..8]) == [payload[7], payload[6], payload[5], payload[4]];
    }
  }

  function Sixteen(host: bytes, low: byte, high: byte): bytes
    requires |host| == 4
  {
    [0, 2, low, high, host[3], host[2], host[1], host[0], 0, 0, 0, 0, 0, 0, 0, 0]
  }

  lemma EncodedOctets(host: bytes, port: nat)
    requires |host| == 4
    ensures EncodeAddress(host, port) ==
            if 1 <= port <= 65535 then Some(Sixteen(host, port % 256, port / 256)) else None
  {
    if 1 <= port <= 65535 {
      SixteenJoined(host, port % 256, port / 256);
    }
  }

  lemma SixteenJoined(host: bytes, low: byte, high: byte)
    requires |host| == 4
    ensures [0x00, 0x02] + [low, high] + Reversed4(host) + [0, 0, 0, 0, 0, 0, 0, 0] == Sixteen(host, low, high)
  {
  }

  /** The relay's own host, the port it allocated, and its token; the answer has them in octets 8 to 9 and 4 to 7. */
  lemma RequestOctets(uid: bytes, relay: Address, packet: bytes)
    requires |relay.host| == 4
    ensures RequestFromAck(uid, relay, packet) ==
            if |packet| == 12 && packet[0] == 0xF1 && packet[1] == 0x73 && !(packet[8] == 0 && packet[9] == 0)
            then Some([0xF1, 0x80, 0x00, 0x28] + uid + Sixteen(relay.host, packet[9], packet[8]) + packet[4..8])
            else None
  {
    if |packet| == 12 {
      assert packet[..2] == [packet[0], packet[1]];
      EncodedOctets(relay.host, Value(packet[8], packet[9]));
      RelayPackets(uid, Sixteen(relay.host, packet[9], packet[8]), packet[4..8]);
    }
  }

  predicate ListEntry(packet: bytes, n: nat, a: Address)
    requires |packet| >= 8 + 16 * n
  {
    exists i | 0 <= i < n :: DecodeAddress(packet[8 + 16 * i..24 + 16 * i]) == Some(a)
  }

  lemma {:induction false} ListEntries(packet: bytes, n: nat, a: Address)
    requires |packet| >= 8 + 16 * n
    ensures a in ListedAmong(packet, n) <==> ListEntry(packet, n, a)
  {
    if n > 0 {
      ListEntries(packet, n - 1, a);
      if DecodeAddress(packet[8 + 16 * (n - 1)..8 + 16 * n]) == Some(a) {
        assert DecodeAddress(packet[8 + 16 * (n - 1)..24 + 16 * (n - 1)]) == Some(a);
      }
    }
  }

  /** A relay list of up to 32 entries, and of the size it announces, lists exactly the addresses in its entries. */
  lemma RelayListOctets(packet: bytes, a: Address)
    ensures a in RelayList(packet) <==>
            && |packet| >= 8 && packet[0] == 0xF1 && packet[1] == 0x69 && packet[4] <= 32
            && |packet| == 8 + 16 * (packet[4] as int) && ListEntry(packet, packet[4] as int, a)
  {
    if |packet| >= 8 {
      assert packet[..2] == [packet[0], packet[1]];
      if |packet| == 8 + 16 * (packet[4] as int) {
        ListEntries(packet, packet[4] as int, a);
      }
    }
  }

  // ---------------------------------------------------------------------------------
  // The rendezvous

  predicate IsServer(from: Address, servers: seq<bytes>) {
    exists s | s in servers :: from == Address(s, 32100)
  }

  lemma DirectoryIsServers(from: Address, servers: seq<bytes>)
    ensures from in Directory(servers) <==> IsServer(from, servers)
  {
  }

  lemma FoundOctets(packet: bytes, from: Address, c: Camera)
    ensures Found(packet, from, Directory(c.servers)) ==
            if |packet| >= 20 && packet[0] == 0xF1 && packet[1] == 0x40 && IsServer(from, c.servers)
            then DecodeAddress(packet[4..20]) else None
  {
    KindOctets(packet, 0x40);
    DirectoryIsServers(from, c.servers);
  }

  /** What a packet teaches: one thing, by its kind and its sender. */
  lemma LearnOctets(n: Progress, packet: bytes, from: Address, c: Camera)
    requires |packet| >= 4 && |from.host| == 4
    ensures var m := Learn(n, packet, from, c);
            m == n.(endpoints := m.endpoints, relays := m.relays, relayPort := m.relayPort, request := m.request)
    ensures Learn(n, packet, from, c).endpoints ==
            n.endpoints + (if |packet| >= 20 && packet[..2] == [0xF1, 0x40] && IsServer(from, c.servers)
                              && DecodeAddress(packet[4..20]).Some?
                           then {DecodeAddress(packet[4..20]).value} else {})
    ensures Learn(n, packet, from, c).relays ==
            n.relays + (if packet[..2] == [0xF1, 0x69] && IsServer(from, c.servers) then RelayList(packet) else {})
    ensures Learn(n, packet, from, c).relayPort ==
            if packet[..2] == [0xF1, 0x71] && from in n.relays && n.relayPort == None then Some(from) else n.relayPort
    ensures Learn(n, packet, from, c).request ==
            if packet[..2] == [0xF1, 0x73] && from in n.relays && n.relayPort == Some(from)
               && RequestFromAck(c.uid, from, packet).Some?
            then RequestFromAck(c.uid, from, packet) else n.request
  {
    assert packet[..2] == [packet[0], packet[1]];
    FoundOctets(packet, from, c);
    DirectoryIsServers(from, c.servers);
  }

  /** Whom a close will tell because of a packet: who offered itself, and the endpoint it names. */
  lemma TouchedOctets(packet: bytes, from: Address, c: Camera, a: Address)
    requires |packet| >= 4
    ensures a in Touched(packet, from, c) <==>
            || (a == from && packet[0] == 0xF1 && packet[1] in {0x41, 0x42, 0x84})
            || (|packet| >= 20 && packet[0] == 0xF1 && packet[1] == 0x40 && IsServer(from, c.servers)
                && DecodeAddress(packet[4..20]) == Some(a))
  {
    assert packet[..2] == [packet[0], packet[1]];
    FoundOctets(packet, from, c);
  }

  /** A found endpoint is punched, and the chosen relay asked for a port. */
  lemma FinderAnswers(n: Progress, packet: bytes, from: Address, c: Camera)
    requires |packet| >= 4 && packet[0] == 0xF1
    ensures packet[1] == 0x40 && |packet| >= 20 && IsServer(from, c.servers) && DecodeAddress(packet[4..20]).Some? ==>
              var punch := Out([0xF1, 0x41, 0x00, 0x14] + c.uid, DecodeAddress(packet[4..20]).value);
              Answer(n, packet, from, c) == [punch, punch]
    ensures packet[1] == 0x71 && from in n.relays && n.relayPort == None ==>
              Answer(n, packet, from, c) == [Out([0xF1, 0x72, 0x00, 0x00], from)]
  {
    assert packet[..2] == [packet[0], packet[1]];
    FoundOctets(packet, from, c);
    NamedPackets(c.uid, []);
    BarePackets();
  }

  /** The target and the server that names it get the token; the two ends of a relayed path are knocked at. */
  lemma RelayAnswers(n: Progress, packet: bytes, from: Address, c: Camera)
    requires |packet| >= 4 && packet[0] == 0xF1
    ensures packet[1] == 0x82 && |packet| == 24 && IsServer(from, c.servers) && DecodeAddress(packet[4..20]).Some? ==>
              var punch := [0xF1, 0x83, 0x00, 0x1C] + packet[20..24] + c.uid + [0x00, 0x00, 0x00, 0x00];
              var target := DecodeAddress(packet[4..20]).value;
              Answer(n, packet, from, c) == [Out(punch, target), Out(punch, target), Out(punch, from), Out(punch, from)]
    ensures packet[1] == 0x02 && |packet| == 36 ==>
              Answer(n, packet, from, c) == KnockTwice(DecodeAddress(packet[4..20])) + KnockTwice(DecodeAddress(packet[20..36]))
  {
    assert packet[..2] == [packet[0], packet[1]];
    FoundOctets(packet, from, c);
    DirectoryIsServers(from, c.servers);
    RelayPackets(c.uid, [], if |packet| == 24 then packet[20..24] else []);
    BarePackets();
  }

  function KnockTwice(to: Option<Address>): seq<Traffic> {
    if to.Some? then [Out([0xF1, 0x03, 0x00, 0x00], to.value), Out([0xF1, 0x03, 0x00, 0x00], to.value)] else []
  }

  /** Offers are met with life, with readiness and life, or with an acknowledgement of readiness, and only real offers. */
  lemma OfferAnswers(n: Progress, packet: bytes, from: Address, c: Camera)
    requires |packet| >= 4 && packet[0] == 0xF1 && packet[1] in {0x41, 0x42, 0x84}
    ensures Answer(n, packet, from, c) ==
            if |packet| != 24 || packet[4..24] != c.uid || IsServer(from, c.servers) then []
            else if packet[1] == 0x84 then [Out([0xF1, 0xE0, 0x00, 0x00], from)]
            else if packet[1] == 0x42 then [Out([0xF1, 0x43, 0x00, 0x00], from)]
            else if c.preferRelay then []
            else [Out([0xF1, 0x42, 0x00, 0x14] + c.uid, from), Out([0xF1, 0xE0, 0x00, 0x00], from)]
  {
    assert packet[..2] == [packet[0], packet[1]];
    FoundOctets(packet, from, c);
    DirectoryIsServers(from, c.servers);
    NamedPackets(c.uid, []);
    BarePackets();
  }

  /** Packets of no other kind are answered. */
  lemma OthersAreIgnored(n: Progress, packet: bytes, from: Address, c: Camera)
    requires |packet| >= 4 && Answer(n, packet, from, c) != []
    ensures packet[0] == 0xF1 && packet[1] in {0x40, 0x71, 0x82, 0x02, 0x41, 0x42, 0x84}
  {
    assert packet[..2] == [packet[0], packet[1]];
  }

  /** The same packet once to each target: to all of them, to no other, to none twice. */
  lemma SentToAllIsExact(outs: seq<Traffic>, packet: bytes, targets: set<Address>)
    requires SentToAll(outs, packet, targets)
    ensures |outs| == |targets| && forall o :: o in outs <==> o.Out? && o.packet == packet && o.to in targets
  {
    forall o
      ensures o in outs <==> o.Out? && o.packet == packet && o.to in targets
    {
      if o.Out? && o.packet == packet && o.to in targets {
        assert o == Out(packet, o.to);
      }
    }
  }

  lemma {:induction false} AsksAreExact(servers: seq<bytes>, k: nat, lookup: bytes, greet: bool, o: Traffic)
    requires k <= |servers|
    ensures o in Asks(servers, k, lookup, greet) <==>
            && o.Out? && IsServer(o.to, servers[..k])
            && (o.packet == lookup || (greet && o.packet == [0xF1, 0x00, 0x00, 0x00]))
    ensures |Asks(servers, k, lookup, greet)| == if greet then 2 * k else k
  {
    if k > 0 {
      AsksAreExact(servers, k - 1, lookup, greet, o);
      assert servers[..k] == servers[..k - 1] + [servers[k - 1]];
      BarePackets();
    }
  }

  /** When each kind of timed packet goes out, to whom, and to nobody else. */
  lemma RoundOctets(r: Round, n: Progress, now: int, c: Camera, local: bytes, o: Traffic)
    requires IsRound(r, n, now, c, local)
    ensures o in r.asks <==>
            && now - n.lastDirectory >= 1000 && o.Out? && IsServer(o.to, c.servers)
            && (o.packet == [0xF1, 0x20, 0x00, 0x24] + c.uid + local || (!n.helloSent && o.packet == [0xF1, 0x00, 0x00, 0x00]))
    ensures o in r.listAsks <==>
            now - n.lastRelayList >= 3000 && o.Out? && IsServer(o.to, c.servers) && o.packet == [0xF1, 0x67, 0x00, 0x14] + c.uid
    ensures o in r.punches <==>
            && n.endpoints != {} && now - n.lastPunch >= 1000
            && o.Out? && o.packet == [0xF1, 0x41, 0x00, 0x14] + c.uid && Probes(r.order, o.to)
  {
    NamedPackets(c.uid, local);
    AsksAreExact(c.servers, |c.servers|, Lookup(c.uid, local), !n.helloSent, o);
    assert c.servers[..|c.servers|] == c.servers;
    if now - n.lastRelayList >= RELAY_LIST_RETRY_MS {
      SentToAllIsExact(r.listAsks, RelayListAsk(c.uid), Directory(c.servers));
      if o.Out? {
        DirectoryIsServers(o.to, c.servers);
      }
    }
    if n.endpoints != {} && now - n.lastPunch >= PUNCH_RETRY_MS {
      PunchesProbe(Punch(c.uid), r.order, o);
    }
  }

  /** To the relays a greeting each; to the chosen relay a port ask; and once there is a request, it to each directory server. */
  lemma RelayRoundOctets(r: Round, n: Progress, now: int, c: Camera, local: bytes, o: Traffic)
    requires IsRound(r, n, now, c, local)
    ensures o in r.relay <==>
            && n.relays != {} && now - n.lastRelay >= 1000 && o.Out?
            && (if n.relayPort == None then o.packet == [0xF1, 0x70, 0x00, 0x00] && o.to in n.relays
                else if n.request == None then o.packet == [0xF1, 0x72, 0x00, 0x00] && n.relayPort == Some(o.to)
                else n.request == Some(o.packet) && IsServer(o.to, c.servers))
  {
    BarePackets();
    if n.relays != {} && now - n.lastRelay >= RELAY_RETRY_MS {
      if n.relayPort.None? {
        SentToAllIsExact(r.relay, Bare(RELAY_HELLO), n.relays);
      } else if n.request.Some? {
        SentToAllIsExact(r.relay, n.request.value, Directory(c.servers));
        if o.Out? {
          DirectoryIsServers(o.to, c.servers);
        }
      }
    }
  }

  /** A timer is set exactly when its packets were due. */
  lemma TimersAfterRound(n: Progress, now: int)
    ensures var m := AfterRound(n, now);
            && m == n.(helloSent := m.helloSent, lastDirectory := m.lastDirectory, lastRelayList := m.lastRelayList,
                       lastRelay := m.lastRelay, lastPunch := m.lastPunch)
            && m.lastDirectory == (if now >= n.lastDirectory + 1000 then now else n.lastDirectory)
            && m.lastRelayList == (if now >= n.lastRelayList + 3000 then now else n.lastRelayList)
            && m.lastRelay == (if n.relays != {} && now >= n.lastRelay + 1000 then now else n.lastRelay)
            && m.lastPunch == (if n.endpoints != {} && now >= n.lastPunch + 1000 then now else n.lastPunch)
            && (m.helloSent <==> n.helloSent || now >= n.lastDirectory + 1000)
  {
  }
}
