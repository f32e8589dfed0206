/**
 What must be true of the traffic of a rendezvous: which relay was asked for a port, and
 when and where to a relay request may go.
 */
module Negotiation {
  import opened Octets
  import opened Packets
  import opened Environment

  const DIRECTORY_PORT: nat := 32100
  const DIRECTORY_RETRY_MS: int := 1_000
  const RELAY_LIST_RETRY_MS: int := 3_000
  const RELAY_RETRY_MS: int := 1_000
  const PUNCH_RETRY_MS: int := 1_000
  const PUNCH_PORT_RANGE: int := 3

  /** The locals of the rendezvous loop. */
  datatype Progress = Progress(
    endpoints: set<Address>,
    relays: set<Address>,
    relayPort: Option<Address>,
    request: Option<bytes>,
    helloSent: bool,
    lastDirectory: int,
    lastRelayList: int,
    lastRelay: int,
    lastPunch: int)

  const NOTHING_YET := Progress({}, {}, None, None, false, 0, 0, 0, 0)

  /** A directory server sent a relay list that holds this address. */
  ghost predicate Listed(t: seq<Traffic>, directory: set<Address>, relay: Address) {
    exists i :: 0 <= i < |t| && t[i].In? && t[i].from in directory && relay in RelayList(t[i].packet)
  }

  /** The relay sent the 12-octet answer this request is built from. */
  ghost predicate Granted(t: seq<Traffic>, uid: bytes, relay: Address, request: bytes) {
    exists i :: 0 <= i < |t| && t[i].In? && t[i].from == relay && |relay.host| == 4
                && RequestFromAck(uid, relay, t[i].packet) == Some(request)
  }

  /** A relay request goes to a directory server, and only once granted; ports are asked of the one relay only. */
  ghost predicate Proper(t: seq<Traffic>, uid: bytes, directory: set<Address>, relayPort: Option<Address>, o: Traffic)
    requires o.Out?
  {
    && (Kind(o.packet) == RELAY_REQUEST ==>
          o.to in directory && relayPort.Some? && Granted(t, uid, relayPort.value, o.packet))
    && (Kind(o.packet) == RELAY_PORT_ASK ==> relayPort == Some(o.to))
  }

  /** Each packet sent was proper when it was sent. */
  ghost predicate ProperTraffic(t: seq<Traffic>, uid: bytes, directory: set<Address>, relayPort: Option<Address>) {
    forall i | 0 <= i < |t| && t[i].Out? :: Proper(t[..i], uid, directory, relayPort, t[i])
  }

  ghost predicate Sound(t: seq<Traffic>, uid: bytes, directory: set<Address>, n: Progress) {
    && ProperTraffic(t, uid, directory, n.relayPort)
    && (forall r | r in n.relays :: Usable(r) && Listed(t, directory, r))
    && (n.relayPort.Some? ==> n.relayPort.value in n.relays)
    && (n.request.Some? ==> n.relayPort.Some? && Granted(t, uid, n.relayPort.value, n.request.value))
    && (forall e | e in n.endpoints :: Usable(e))
  }

  lemma ListedGrows(t: seq<Traffic>, more: seq<Traffic>, directory: set<Address>, relay: Address)
    requires Listed(t, directory, relay)
    ensures Listed(t + more, directory, relay)
  {
    var i :| 0 <= i < |t| && t[i].In? && t[i].from in directory && relay in RelayList(t[i].packet);
    assert (t + more)[i] == t[i];
  }

  lemma GrantedGrows(t: seq<Traffic>, more: seq<Traffic>, uid: bytes, relay: Address, request: bytes)
    requires Granted(t, uid, relay, request)
    ensures Granted(t + more, uid, relay, request)
  {
    var i :| 0 <= i < |t| && t[i].In? && t[i].from == relay && |relay.host| == 4
             && RequestFromAck(uid, relay, t[i].packet) == Some(request);
    assert (t + more)[i] == t[i];
  }

  lemma ProperGrows(t: seq<Traffic>, more: seq<Traffic>, uid: bytes, directory: set<Address>, relayPort: Option<Address>, o: Traffic)
    requires o.Out? && Proper(t, uid, directory, relayPort, o)
    ensures Proper(t + more, uid, directory, relayPort, o)
  {
    if Kind(o.packet) == RELAY_REQUEST {
      GrantedGrows(t, more, uid, relayPort.value, o.packet);
    }
  }

  lemma TrafficAppend(t: seq<Traffic>, outs: seq<Traffic>, uid: bytes, directory: set<Address>, relayPort: Option<Address>)
    requires ProperTraffic(t, uid, directory, relayPort)
    requires forall i | 0 <= i < |outs| && outs[i].Out? :: Proper(t, uid, directory, relayPort, outs[i])
    ensures ProperTraffic(t + outs, uid, directory, relayPort)
  {
    var all := t + outs;
    forall i | 0 <= i < |all| && all[i].Out?
      ensures Proper(all[..i], uid, directory, relayPort, all[i])
    {
      if i < |t| {
        assert all[..i] == t[..i];
      } else {
        assert all[..i] == t + outs[..i - |t|];
        ProperGrows(t, outs[..i - |t|], uid, directory, relayPort, outs[i - |t|]);
      }
    }
  }

  /** Proper packets may be sent, and anything may be received, at any point. */
  lemma SoundAppend(t: seq<Traffic>, outs: seq<Traffic>, uid: bytes, directory: set<Address>, n: Progress)
    requires Sound(t, uid, directory, n)
    requires forall i | 0 <= i < |outs| && outs[i].Out? :: Proper(t, uid, directory, n.relayPort, outs[i])
    ensures Sound(t + outs, uid, directory, n)
  {
    TrafficAppend(t, outs, uid, directory, n.relayPort);
    forall r | r in n.relays
      ensures Listed(t + outs, directory, r)
    {
      ListedGrows(t, outs, directory, r);
    }
    if n.request.Some? {
      GrantedGrows(t, outs, uid, n.relayPort.value, n.request.value);
    }
  }

  /** Whoever offered itself as the peer will be told when the session closes. */
  ghost predicate Remembered(t: seq<Traffic>, targets: set<Address>) {
    forall i | 0 <= i < |t| && t[i].In? && OffersItself(t[i].packet) :: t[i].from in targets
  }

  predicate OffersItself(packet: bytes) {
    Kind(packet) == PUNCH || Kind(packet) == READY || Kind(packet) == RELAY_READY
  }

  /** Packets of other kinds may go anywhere at any time. */
  predicate Unrestricted(packet: bytes) {
    Kind(packet) != RELAY_REQUEST && Kind(packet) != RELAY_PORT_ASK
  }

  lemma KindIs(kind: bytes, rest: bytes)
    requires |kind| == 2
    ensures Kind(kind + rest) == kind
  {
  }

  lemma {:induction false} ListedAreUsable(packet: bytes, n: nat)
    requires |packet| >= 8 + 16 * n
    ensures forall a | a in ListedAmong(packet, n) :: Usable(a)
  {
    if n > 0 {
      ListedAreUsable(packet, n - 1);
    }
  }

}
