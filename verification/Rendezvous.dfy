/**
 One turn of the rendezvous, as values: what is sent when its time has come, what is
 learned from a packet, what it is answered with, and when it completes the rendezvous.
 And that such turns keep the traffic sound.
 */
module Rendezvous {
  import opened Octets
  import opened Packets
  import opened Environment
  import opened Negotiation

  /** What the session was made for. */
  datatype Camera = Camera(uid: bytes, servers: seq<bytes>, preferRelay: bool)

  function Directory(servers: seq<bytes>): set<Address> {
    set s | s in servers :: Address(s, DIRECTORY_PORT)
  }

  function Punch(uid: bytes): bytes {
    PUNCH + ([0x00, 0x14] + uid)
  }

  function Lookup(uid: bytes, local: bytes): bytes {
    LOOKUP + ([0x00, 0x24] + uid + local)
  }

  function RelayListAsk(uid: bytes): bytes {
    [0xF1, 0x67] + ([0x00, 0x14] + uid)
  }

  function Ready(uid: bytes): bytes {
    READY + ([0x00, 0x14] + uid)
  }

  const RELAY_HELLO: bytes := [0xF1, 0x70]
  const KNOCK: bytes := [0xF1, 0x03]

  function Twice(packet: bytes, to: Address): seq<Traffic> {
    [Out(packet, to), Out(packet, to)]
  }

  // ---------------------------------------------------------------------------------
  // The timed sends

  /** The lookup, and the first time a greeting, to the first `k` directory servers. */
  function Asks(servers: seq<bytes>, k: nat, lookup: bytes, greet: bool): seq<Traffic>
    requires k <= |servers|
  {
    if k == 0 then []
    else
      var to := Address(servers[k - 1], DIRECTORY_PORT);
      Asks(servers, k - 1, lookup, greet)
      + (if greet then [Out(Bare(HELLO), to)] else []) + [Out(lookup, to)]
  }

  /** Greet the listed relays, ask the chosen one for a port, or send its request on. */
  predicate IsRelayRound(outs: seq<Traffic>, n: Progress, directory: set<Address>) {
    if n.relayPort.None? then SentToAll(outs, Bare(RELAY_HELLO), n.relays)
    else if n.request.None? then outs == [Out(Bare(RELAY_PORT_ASK), n.relayPort.value)]
    else SentToAll(outs, n.request.value, directory)
  }

  function FirstPort(port: nat): nat {
    if port < 1 + PUNCH_PORT_RANGE then 1 else port - PUNCH_PORT_RANGE
  }

  function LastPort(port: nat): nat {
    if port + PUNCH_PORT_RANGE > 0xFFFF then 0xFFFF else port + PUNCH_PORT_RANGE
  }

  /** Two punches to each port from `port` up to but not including `end`. */
  function PunchesUpTo(packet: bytes, host: bytes, port: nat, end: nat): seq<Traffic> {
    if end <= port then [] else PunchesUpTo(packet, host, port, end - 1) + Twice(packet, Address(host, end - 1))
  }

  function Punches(packet: bytes, endpoints: seq<Address>): seq<Traffic>
    requires forall i | 0 <= i < |endpoints| :: Usable(endpoints[i])
  {
    if endpoints == [] then []
    else
      var e := endpoints[|endpoints| - 1];
      Punches(packet, endpoints[..|endpoints| - 1])
      + PunchesUpTo(packet, e.host, FirstPort(e.port), LastPort(e.port) + 1)
  }

  /** Each member once. */
  predicate Enumerates(order: seq<Address>, members: set<Address>) {
    && (forall i | 0 <= i < |order| :: order[i] in members)
    && (forall m | m in members :: m in order)
    && (forall i, j | 0 <= i < j < |order| :: order[i] != order[j])
  }

  /** What one turn sends of its own accord; `order` is the order in which endpoints are punched. */
  datatype Round = Round(asks: seq<Traffic>, listAsks: seq<Traffic>, relay: seq<Traffic>,
                         punches: seq<Traffic>, order: seq<Address>)
  {
    function All(): seq<Traffic> {
      asks + listAsks + relay + punches
    }
  }

  predicate IsRound(r: Round, n: Progress, now: int, c: Camera, local: bytes) {
    && r.asks == (if now - n.lastDirectory >= DIRECTORY_RETRY_MS
                  then Asks(c.servers, |c.servers|, Lookup(c.uid, local), !n.helloSent) else [])
    && (if now - n.lastRelayList >= RELAY_LIST_RETRY_MS
        then SentToAll(r.listAsks, RelayListAsk(c.uid), Directory(c.servers)) else r.listAsks == [])
    && (if n.relays != {} && now - n.lastRelay >= RELAY_RETRY_MS
        then IsRelayRound(r.relay, n, Directory(c.servers)) else r.relay == [])
    && (if n.endpoints != {} && now - n.lastPunch >= PUNCH_RETRY_MS
        then Enumerates(r.order, n.endpoints) && (forall i | 0 <= i < |r.order| :: Usable(r.order[i]))
             && r.punches == Punches(Punch(c.uid), r.order)
        else r.punches == [])
  }

  /** The same findings with the timers of what was sent set anew. */
  function AfterRound(n: Progress, now: int): Progress {
    n.(helloSent := n.helloSent || now - n.lastDirectory >= DIRECTORY_RETRY_MS,
       lastDirectory := if now - n.lastDirectory >= DIRECTORY_RETRY_MS then now else n.lastDirectory,
       lastRelayList := if now - n.lastRelayList >= RELAY_LIST_RETRY_MS then now else n.lastRelayList,
       lastRelay := if n.relays != {} && now - n.lastRelay >= RELAY_RETRY_MS then now else n.lastRelay,
       lastPunch := if n.endpoints != {} && now - n.lastPunch >= PUNCH_RETRY_MS then now else n.lastPunch)
  }

  // ---------------------------------------------------------------------------------
  // Packets

  /** The endpoint a directory server's lookup answer names. */
  function Found(packet: bytes, from: Address, directory: set<Address>): Option<Address> {
    if Kind(packet) == LOOKUP_ANSWER && from in directory && |packet| >= 20
    then DecodeAddress(packet[4..20]) else None
  }

  /** The request the chosen relay's answer allows. */
  function Grant(n: Progress, packet: bytes, from: Address, uid: bytes): Option<bytes> {
    if Kind(packet) == RELAY_PORT && from in n.relays && n.relayPort == Some(from) && |from.host| == 4
    then RequestFromAck(uid, from, packet) else None
  }

  predicate Chooses(n: Progress, packet: bytes, from: Address) {
    Kind(packet) == RELAY_HELLO_ANSWER && from in n.relays && n.relayPort.None?
  }

  /** Progress after a packet. */
  function Learn(n: Progress, packet: bytes, from: Address, c: Camera): Progress {
    var found, grant := Found(packet, from, Directory(c.servers)), Grant(n, packet, from, c.uid);
    if found.Some? then n.(endpoints := n.endpoints + {found.value})
    else if Kind(packet) == RELAY_LIST && from in Directory(c.servers)
    then n.(relays := n.relays + RelayList(packet))
    else if Chooses(n, packet, from) then n.(relayPort := Some(from))
    else if grant.Some? then n.(request := grant)
    else n
  }

  /** The sender becomes one to close when it offers itself, a found endpoint when it is named. */
  function Touched(packet: bytes, from: Address, c: Camera): set<Address> {
    var found := Found(packet, from, Directory(c.servers));
    (if OffersItself(packet) then {from} else {}) + (if found.Some? then {found.value} else {})
  }

  /** The packet is of this kind, carries the camera's identifier, and is no directory server's. */
  predicate Offers(packet: bytes, from: Address, kind: bytes, c: Camera) {
    |packet| == 24 && packet[..2] == kind && packet[4..24] == c.uid && from !in Directory(c.servers)
  }

  /** The path a packet completes the rendezvous on, if it does. */
  function Path(packet: bytes, from: Address, c: Camera): Option<string> {
    if Offers(packet, from, RELAY_READY, c) then Some("relay")
    else if !c.preferRelay && Offers(packet, from, PUNCH, c) then Some("direct-punch")
    else if !c.preferRelay && Offers(packet, from, READY, c) then Some("direct-accept")
    else None
  }

  function OfferAnswer(packet: bytes, from: Address, c: Camera): seq<Traffic> {
    if Offers(packet, from, RELAY_READY, c) then [Out(Bare(ALIVE), from)]
    else if Offers(packet, from, READY, c) then [Out(Bare(READY_ACK), from)]
    else if !c.preferRelay && Offers(packet, from, PUNCH, c)
    then [Out(Ready(c.uid), from), Out(Bare(ALIVE), from)]
    else []
  }

  /** Ask one end of a relayed path, if it can be reached, to open up. */
  function Knocks(to: Option<Address>): seq<Traffic> {
    if to.Some? then Twice(Bare(KNOCK), to.value) else []
  }

  /** The target a directory server says to punch, and the token to do it with. */
  function Target(packet: bytes, from: Address, directory: set<Address>): Option<(Address, bytes)> {
    if Kind(packet) == RELAY_TARGET && from in directory && |packet| == 24 && DecodeAddress(packet[4..20]).Some?
    then Some((DecodeAddress(packet[4..20]).value, packet[20..24])) else None
  }

  function Answer(n: Progress, packet: bytes, from: Address, c: Camera): seq<Traffic> {
    var found := Found(packet, from, Directory(c.servers));
    var target := Target(packet, from, Directory(c.servers));
    if found.Some? then Twice(Punch(c.uid), found.value)
    else if Chooses(n, packet, from) then [Out(Bare(RELAY_PORT_ASK), from)]
    else if target.Some?
    then Twice(RelayPunch(c.uid, target.value.1), target.value.0) + Twice(RelayPunch(c.uid, target.value.1), from)
    else if Kind(packet) == RELAY_PACKET && |packet| == 36
    then Knocks(DecodeAddress(packet[4..20])) + Knocks(DecodeAddress(packet[20..36]))
    else OfferAnswer(packet, from, c)
  }

  /** A grant is passed to every directory server; everything else is answered one way. */
  predicate IsAnswer(outs: seq<Traffic>, n: Progress, packet: bytes, from: Address, c: Camera) {
    var grant := Grant(n, packet, from, c.uid);
    if grant.Some? then SentToAll(outs, grant.value, Directory(c.servers))
    else outs == Answer(n, packet, from, c)
  }

  // ---------------------------------------------------------------------------------
  // Turns keep the traffic sound

  predicate AllUnrestricted(outs: seq<Traffic>) {
    forall i | 0 <= i < |outs| :: outs[i].Out? && Unrestricted(outs[i].packet)
  }

  predicate AllOut(outs: seq<Traffic>) {
    forall i | 0 <= i < |outs| :: outs[i].Out?
  }

  lemma FixedPacketsAreUnrestricted(uid: bytes, local: bytes, token: bytes)
    ensures Unrestricted(Bare(HELLO)) && Unrestricted(Bare(READY_ACK)) && Unrestricted(Bare(ALIVE)) && Unrestricted(Bare(KNOCK))
    ensures Unrestricted(Punch(uid)) && Unrestricted(Lookup(uid, local)) && Unrestricted(RelayListAsk(uid))
    ensures Unrestricted(Bare(RELAY_HELLO)) && Unrestricted(Ready(uid)) && Unrestricted(RelayPunch(uid, token))
    ensures Kind(Bare(RELAY_PORT_ASK)) == RELAY_PORT_ASK
  {
    KindIs(PUNCH, [0x00, 0x14] + uid);
    KindIs(LOOKUP, [0x00, 0x24] + uid + local);
    KindIs([0xF1, 0x67], [0x00, 0x14] + uid);
    KindIs(READY, [0x00, 0x14] + uid);
    assert RelayPunch(uid, token) == [0xF1, 0x83] + ([0x00, 0x1C] + token + uid + [0, 0, 0, 0]);
    KindIs([0xF1, 0x83], [0x00, 0x1C] + token + uid + [0, 0, 0, 0]);
  }

  lemma {:induction false} AsksAreUnrestricted(servers: seq<bytes>, k: nat, lookup: bytes, greet: bool)
    requires k <= |servers| && Unrestricted(lookup) && Unrestricted(Bare(HELLO))
    ensures AllUnrestricted(Asks(servers, k, lookup, greet))
  {
    if k > 0 {
      AsksAreUnrestricted(servers, k - 1, lookup, greet);
    }
  }

  /** A punch goes to a known endpoint's host, at most three ports away. */
  predicate Probes(endpoints: seq<Address>, a: Address) {
    exists e | e in endpoints :: a.host == e.host && e.port - 3 <= a.port <= e.port + 3 && 1 <= a.port <= 0xFFFF
  }

  lemma {:induction false} PunchesUpToAre(packet: bytes, host: bytes, port: nat, end: nat, o: Traffic)
    ensures o in PunchesUpTo(packet, host, port, end) <==>
            o.Out? && o.packet == packet && o.to.host == host && port <= o.to.port < end
  {
    if port < end {
      PunchesUpToAre(packet, host, port, end - 1, o);
    }
  }

  /** Punched are exactly the ports at most three away from a known endpoint's. */
  lemma {:induction false} PunchesProbe(packet: bytes, order: seq<Address>, o: Traffic)
    requires forall i | 0 <= i < |order| :: Usable(order[i])
    ensures o in Punches(packet, order) <==> o.Out? && o.packet == packet && Probes(order, o.to)
  {
    if order != [] {
      var e, rest := order[|order| - 1], order[..|order| - 1];
      PunchesProbe(packet, rest, o);
      PunchesUpToAre(packet, e.host, FirstPort(e.port), LastPort(e.port) + 1, o);
      assert order == rest + [e];
    }
  }

  /** What a turn may send in a given state of the rendezvous. */
  ghost predicate AllProper(outs: seq<Traffic>, t: seq<Traffic>, uid: bytes, directory: set<Address>, n: Progress) {
    forall i | 0 <= i < |outs| :: outs[i].Out? && Proper(t, uid, directory, n.relayPort, outs[i])
  }

  lemma GrantedIsRequest(t: seq<Traffic>, uid: bytes, relay: Address, request: bytes)
    requires Granted(t, uid, relay, request)
    ensures Kind(request) == RELAY_REQUEST
  {
    var i :| 0 <= i < |t| && t[i].In? && t[i].from == relay && |relay.host| == 4
             && RequestFromAck(uid, relay, t[i].packet) == Some(request);
    assert request[..2] == RELAY_REQUEST;
  }

  lemma RelayRoundIsProper(outs: seq<Traffic>, t: seq<Traffic>, uid: bytes, directory: set<Address>, n: Progress)
    requires Sound(t, uid, directory, n) && IsRelayRound(outs, n, directory)
    ensures AllProper(outs, t, uid, directory, n)
  {
    FixedPacketsAreUnrestricted(uid, [], []);
    if n.request.Some? {
      GrantedIsRequest(t, uid, n.relayPort.value, n.request.value);
    }
  }

  lemma FreeSendsAreUnrestricted(r: Round, n: Progress, now: int, c: Camera, local: bytes)
    requires IsRound(r, n, now, c, local)
    ensures AllUnrestricted(r.asks) && AllUnrestricted(r.listAsks) && AllUnrestricted(r.punches)
  {
    FixedPacketsAreUnrestricted(c.uid, local, []);
    AsksAreUnrestricted(c.servers, |c.servers|, Lookup(c.uid, local), !n.helloSent);
    forall i | 0 <= i < |r.punches|
      ensures r.punches[i].Out? && Unrestricted(r.punches[i].packet)
    {
      PunchesProbe(Punch(c.uid), r.order, r.punches[i]);
    }
  }

  lemma AllProperTogether(a: seq<Traffic>, b: seq<Traffic>, t: seq<Traffic>, uid: bytes, directory: set<Address>, n: Progress)
    requires AllProper(a, t, uid, directory, n) && AllProper(b, t, uid, directory, n)
    ensures AllProper(a + b, t, uid, directory, n)
  {
  }

  lemma RoundIsProper(r: Round, t: seq<Traffic>, n: Progress, now: int, c: Camera, local: bytes)
    requires Sound(t, c.uid, Directory(c.servers), n) && IsRound(r, n, now, c, local)
    ensures AllProper(r.All(), t, c.uid, Directory(c.servers), n)
  {
    var directory := Directory(c.servers);
    FreeSendsAreUnrestricted(r, n, now, c, local);
    if r.relay != [] {
      RelayRoundIsProper(r.relay, t, c.uid, directory, n);
    }
    AllProperTogether(r.asks, r.listAsks, t, c.uid, directory, n);
    AllProperTogether(r.asks + r.listAsks, r.relay, t, c.uid, directory, n);
    AllProperTogether(r.asks + r.listAsks + r.relay, r.punches, t, c.uid, directory, n);
  }

  /** The timed sends of a turn are proper. */
  lemma RoundKeepsSound(r: Round, t: seq<Traffic>, n: Progress, now: int, c: Camera, local: bytes)
    requires Sound(t, c.uid, Directory(c.servers), n) && IsRound(r, n, now, c, local)
    ensures Sound(t + r.All(), c.uid, Directory(c.servers), AfterRound(n, now)) && AllOut(r.All())
  {
    RoundIsProper(r, t, n, now, c, local);
    SoundAppend(t, r.All(), c.uid, Directory(c.servers), n);
  }

  lemma RelaysKnown(t: seq<Traffic>, packet: bytes, from: Address, uid: bytes, directory: set<Address>, n: Progress)
    requires Sound(t, uid, directory, n) && from in directory && t != [] && t[|t| - 1] == In(packet, from)
    ensures Sound(t, uid, directory, n.(relays := n.relays + RelayList(packet)))
  {
    forall r | r in RelayList(packet)
      ensures Usable(r) && Listed(t, directory, r)
    {
      ListedAreUsable(packet, packet[4]);
    }
  }

  /** What is learned from the packet that arrived last is sound. */
  lemma LearnKeepsSound(t: seq<Traffic>, n: Progress, packet: bytes, from: Address, c: Camera)
    requires Sound(t, c.uid, Directory(c.servers), n) && t != [] && t[|t| - 1] == In(packet, from)
    ensures Sound(t, c.uid, Directory(c.servers), Learn(n, packet, from, c))
  {
    var directory := Directory(c.servers);
    if Kind(packet) == RELAY_LIST && from in directory {
      RelaysKnown(t, packet, from, c.uid, directory, n);
    } else if Chooses(n, packet, from) {
    } else if Grant(n, packet, from, c.uid).Some? {
      assert Granted(t, c.uid, from, Grant(n, packet, from, c.uid).value);
    }
  }

  lemma TwiceIsUnrestricted(packet: bytes, to: Address)
    requires Unrestricted(packet)
    ensures AllUnrestricted(Twice(packet, to))
  {
  }

  lemma TargetAnswerIsUnrestricted(uid: bytes, target: (Address, bytes), from: Address)
    ensures AllUnrestricted(Twice(RelayPunch(uid, target.1), target.0) + Twice(RelayPunch(uid, target.1), from))
  {
    FixedPacketsAreUnrestricted(uid, [], target.1);
    TwiceIsUnrestricted(RelayPunch(uid, target.1), target.0);
    TwiceIsUnrestricted(RelayPunch(uid, target.1), from);
  }

  lemma OtherAnswersAreUnrestricted(n: Progress, packet: bytes, from: Address, c: Camera)
    requires !Chooses(n, packet, from)
    ensures AllUnrestricted(Answer(n, packet, from, c))
  {
    var found, target := Found(packet, from, Directory(c.servers)), Target(packet, from, Directory(c.servers));
    if found.Some? {
      FixedPacketsAreUnrestricted(c.uid, [], []);
      TwiceIsUnrestricted(Punch(c.uid), found.value);
    } else if target.Some? {
      TargetAnswerIsUnrestricted(c.uid, target.value, from);
    }
  }

  lemma AnswerIsProper(outs: seq<Traffic>, t: seq<Traffic>, n: Progress, packet: bytes, from: Address, c: Camera)
    requires Sound(t, c.uid, Directory(c.servers), Learn(n, packet, from, c)) && IsAnswer(outs, n, packet, from, c)
    ensures AllProper(outs, t, c.uid, Directory(c.servers), Learn(n, packet, from, c))
  {
    var grant := Grant(n, packet, from, c.uid);
    if grant.Some? {
      GrantedIsRequest(t, c.uid, from, grant.value);
    } else if Chooses(n, packet, from) {
      FixedPacketsAreUnrestricted(c.uid, [], []);
    } else {
      OtherAnswersAreUnrestricted(n, packet, from, c);
    }
  }

  /** Learning from a packet and answering it keeps the traffic sound. */
  lemma PacketKeepsSound(outs: seq<Traffic>, t: seq<Traffic>, n: Progress, packet: bytes, from: Address, c: Camera)
    requires Sound(t, c.uid, Directory(c.servers), n) && IsAnswer(outs, n, packet, from, c)
    ensures Sound(t + [In(packet, from)] + outs, c.uid, Directory(c.servers), Learn(n, packet, from, c)) && AllOut(outs)
  {
    var directory, heard, n' := Directory(c.servers), t + [In(packet, from)], Learn(n, packet, from, c);
    SoundAppend(t, [In(packet, from)], c.uid, directory, n);
    LearnKeepsSound(heard, n, packet, from, c);
    AnswerIsProper(outs, heard, n, packet, from, c);
    SoundAppend(heard, outs, c.uid, directory, n');
  }

  lemma RememberedGrows(t: seq<Traffic>, outs: seq<Traffic>, targets: set<Address>)
    requires Remembered(t, targets) && Remembered(outs, targets)
    ensures Remembered(t + outs, targets)
  {
    var all := t + outs;
    forall i | 0 <= i < |all| && all[i].In? && OffersItself(all[i].packet)
      ensures all[i].from in targets
    {
      assert i < |t| || all[i] == outs[i - |t|];
    }
  }

  /** The traffic so far is sound, and everyone in it will be told when the session closes. */
  ghost predicate WellKept(t: seq<Traffic>, n: Progress, c: Camera, targets: set<Address>) {
    && Sound(t, c.uid, Directory(c.servers), n)
    && Remembered(t, targets)
    && n.endpoints <= targets
  }

  lemma RoundIsWellKept(r: Round, t: seq<Traffic>, n: Progress, now: int, c: Camera, local: bytes, targets: set<Address>)
    requires WellKept(t, n, c, targets) && IsRound(r, n, now, c, local)
    ensures WellKept(t + r.All(), AfterRound(n, now), c, targets) && AllOut(r.All())
  {
    RoundKeepsSound(r, t, n, now, c, local);
    RememberedGrows(t, r.All(), targets);
  }

  lemma PacketIsWellKept(outs: seq<Traffic>, t: seq<Traffic>, n: Progress, packet: bytes, from: Address, c: Camera, targets: set<Address>)
    requires WellKept(t, n, c, targets) && IsAnswer(outs, n, packet, from, c)
    ensures WellKept(t + [In(packet, from)] + outs, Learn(n, packet, from, c), c, targets + Touched(packet, from, c)) && AllOut(outs)
  {
    PacketKeepsSound(outs, t, n, packet, from, c);
    var more := targets + Touched(packet, from, c);
    RememberedGrows(t, [In(packet, from)], more);
    RememberedGrows(t + [In(packet, from)], outs, more);
  }
}
