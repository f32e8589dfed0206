/**
 The rendezvous that connects a session: find the camera through the directory servers,
 prefer a relay over a direct punch, and give up closed at the deadline. Each method
 follows the rules of module `Rendezvous`; the traffic of a whole attempt is sound.
 */
module Connect {
  import opened Octets
  import opened Packets
  import opened Environment
  import opened Negotiation
  import opened Rendezvous
  import opened Attempts
  import Session

  type CS2Session = Session.CS2Session

  function CameraOf(session: CS2Session): Camera {
    Camera(session.uid, session.servers, session.preferRelay)
  }

  // ---------------------------------------------------------------------------------
  // The timed sends

  method SendTwice(session: CS2Session, packet: bytes, to: Address)
    modifies session`trace
    ensures session.trace == old(session.trace) + Twice(packet, to)
  {
    session.SendClear(packet, to);
    session.SendClear(packet, to);
  }

  /** The lookup, and the first time a greeting, for each directory server. */
  method AskDirectory(session: CS2Session, lookup: bytes, greet: bool)
    modifies session`trace
    ensures session.trace == old(session.trace) + Asks(session.servers, |session.servers|, lookup, greet)
  {
    for i := 0 to |session.servers|
      invariant session.trace == old(session.trace) + Asks(session.servers, i, lookup, greet)
    {
      var to := Address(session.servers[i], DIRECTORY_PORT);
      if greet {
        session.SendClear(Bare(HELLO), to);
      }
      session.SendClear(lookup, to);
    }
  }

  method PursueDirectory(session: CS2Session, n: Progress, now: int, local: bytes) returns (ghost outs: seq<Traffic>)
    modifies session`trace
    ensures session.trace == old(session.trace) + outs
    ensures outs == if now - n.lastDirectory >= DIRECTORY_RETRY_MS
                    then Asks(session.servers, |session.servers|, Lookup(session.uid, local), !n.helloSent) else []
  {
    outs := [];
    if now - n.lastDirectory >= DIRECTORY_RETRY_MS {
      AskDirectory(session, Lookup(session.uid, local), !n.helloSent);
      outs := Asks(session.servers, |session.servers|, Lookup(session.uid, local), !n.helloSent);
    }
  }

  method PursueRelayList(session: CS2Session, n: Progress, now: int) returns (ghost outs: seq<Traffic>)
    modifies session`trace
    ensures session.trace == old(session.trace) + outs
    ensures if now - n.lastRelayList >= RELAY_LIST_RETRY_MS
            then SentToAll(outs, RelayListAsk(session.uid), Directory(session.servers)) else outs == []
  {
    outs := [];
    if now - n.lastRelayList >= RELAY_LIST_RETRY_MS {
      outs := session.Broadcast(RelayListAsk(session.uid), Directory(session.servers));
    }
  }

  method PursueRelay(session: CS2Session, n: Progress, now: int) returns (ghost outs: seq<Traffic>)
    modifies session`trace
    ensures session.trace == old(session.trace) + outs
    ensures if n.relays != {} && now - n.lastRelay >= RELAY_RETRY_MS
            then IsRelayRound(outs, n, Directory(session.servers)) else outs == []
  {
    outs := [];
    if n.relays != {} && now - n.lastRelay >= RELAY_RETRY_MS {
      if n.relayPort.None? {
        outs := session.Broadcast(Bare(RELAY_HELLO), n.relays);
      } else if n.request.None? {
        session.SendClear(Bare(RELAY_PORT_ASK), n.relayPort.value);
        outs := [Out(Bare(RELAY_PORT_ASK), n.relayPort.value)];
      } else {
        outs := session.Broadcast(n.request.value, Directory(session.servers));
      }
    }
  }

  method PunchPorts(session: CS2Session, packet: bytes, e: Address)
    requires Usable(e)
    modifies session`trace
    ensures session.trace == old(session.trace) + PunchesUpTo(packet, e.host, FirstPort(e.port), LastPort(e.port) + 1)
  {
    for port := FirstPort(e.port) to LastPort(e.port) + 1
      invariant session.trace == old(session.trace) + PunchesUpTo(packet, e.host, FirstPort(e.port), port)
    {
      SendTwice(session, packet, Address(e.host, port));
    }
  }

  lemma OneMorePunched(t: seq<Traffic>, before: seq<Traffic>, packet: bytes, order: seq<Address>, e: Address)
    requires Usable(e) && forall i | 0 <= i < |order| :: Usable(order[i])
    requires t == before + Punches(packet, order) + PunchesUpTo(packet, e.host, FirstPort(e.port), LastPort(e.port) + 1)
    ensures t == before + Punches(packet, order + [e])
  {
    assert (order + [e])[..|order|] == order;
    Onwards(before, Punches(packet, order), PunchesUpTo(packet, e.host, FirstPort(e.port), LastPort(e.port) + 1));
  }

  method PunchAll(session: CS2Session, packet: bytes, endpoints: set<Address>) returns (ghost order: seq<Address>)
    requires forall e | e in endpoints :: Usable(e)
    modifies session`trace
    ensures Enumerates(order, endpoints) && forall i | 0 <= i < |order| :: Usable(order[i])
    ensures session.trace == old(session.trace) + Punches(packet, order)
  {
    order := [];
    var todo := endpoints;
    ghost var done := {};
    while todo != {}
      invariant done + todo == endpoints && done !! todo && Enumerates(order, done)
      invariant forall i | 0 <= i < |order| :: Usable(order[i])
      invariant session.trace == old(session.trace) + Punches(packet, order)
      decreases todo
    {
      var e :| e in todo;
      todo := todo - {e};
      PunchPorts(session, packet, e);
      OneMorePunched(session.trace, old(session.trace), packet, order, e);
      order, done := order + [e], done + {e};
    }
    assert done == endpoints;
  }

  method PursueEndpoints(session: CS2Session, n: Progress, now: int)
    returns (ghost outs: seq<Traffic>, ghost order: seq<Address>)
    requires forall e | e in n.endpoints :: Usable(e)
    modifies session`trace
    ensures session.trace == old(session.trace) + outs
    ensures if n.endpoints != {} && now - n.lastPunch >= PUNCH_RETRY_MS
            then Enumerates(order, n.endpoints) && (forall i | 0 <= i < |order| :: Usable(order[i]))
                 && outs == Punches(Punch(session.uid), order)
            else outs == []
  {
    outs, order := [], [];
    if n.endpoints != {} && now - n.lastPunch >= PUNCH_RETRY_MS {
      order := PunchAll(session, Punch(session.uid), n.endpoints);
      outs := Punches(Punch(session.uid), order);
    }
  }

  /** The sends of a turn whose time has come. */
  method SendDue(session: CS2Session, n: Progress, now: int, local: bytes) returns (n': Progress, ghost r: Round)
    requires forall e | e in n.endpoints :: Usable(e)
    modifies session`trace
    ensures IsRound(r, n, now, CameraOf(session), local) && session.trace == old(session.trace) + r.All()
    ensures n' == AfterRound(n, now)
  {
    ghost var asks := PursueDirectory(session, n, now, local);
    ghost var listAsks := PursueRelayList(session, n, now);
    ghost var relay := PursueRelay(session, n, now);
    ghost var punches, order := PursueEndpoints(session, n, now);
    r := Round(asks, listAsks, relay, punches, order);
    Onwards(old(session.trace), asks, listAsks);
    Onwards(old(session.trace), asks + listAsks, relay);
    Onwards(old(session.trace), asks + listAsks + relay, punches);
    n' := AfterRound(n, now);
  }

  // ---------------------------------------------------------------------------------
  // Reacting to a packet

  method Knock(session: CS2Session, to: Option<Address>)
    modifies session`trace
    ensures session.trace == old(session.trace) + Knocks(to)
  {
    if to.Some? {
      SendTwice(session, Bare(KNOCK), to.value);
    }
  }

  /** Answer an offer, and adopt its sender if it completes the rendezvous. */
  method Settle(session: CS2Session, packet: bytes, from: Address) returns (connected: bool)
    requires |packet| >= 4
    modifies session`trace, session`peer, session`connectPath
    ensures session.trace == old(session.trace) + OfferAnswer(packet, from, CameraOf(session))
    ensures var path := Path(packet, from, CameraOf(session));
            && connected == path.Some?
            && session.peer == (if connected then Some(from) else old(session.peer))
            && session.connectPath == (if connected then path.value else old(session.connectPath))
  {
    if from in Directory(session.servers) || |packet| != 24 || packet[4..24] != session.uid {
      return false;
    }
    var kind := packet[..2];
    if kind == PUNCH && !session.preferRelay {
      session.peer, session.connectPath, connected := Some(from), "direct-punch", true;
      session.SendClear(Ready(session.uid), from);
      session.SendClear(Bare(ALIVE), from);
    } else if kind == READY && !session.preferRelay {
      session.peer, session.connectPath, connected := Some(from), "direct-accept", true;
      session.SendClear(Bare(READY_ACK), from);
    } else if kind == READY {
      session.SendClear(Bare(READY_ACK), from);
      connected := false;
    } else if kind == RELAY_READY {
      session.peer, session.connectPath, connected := Some(from), "relay", true;
      session.SendClear(Bare(ALIVE), from);
    } else {
      connected := false;
    }
  }

  /** The packet may change what is known, what will be closed, and whether there is a peer. */
  ghost predicate Reacted(n: Progress, n': Progress, packet: bytes, from: Address, c: Camera, outs: seq<Traffic>) {
    n' == Learn(n, packet, from, c) && IsAnswer(outs, n, packet, from, c)
  }

  method ReceiveRelayPort(session: CS2Session, packet: bytes, from: Address, n: Progress)
    returns (n': Progress, ghost outs: seq<Traffic>)
    requires Kind(packet) == RELAY_PORT && from in n.relays && Usable(from)
    modifies session`trace
    ensures session.trace == old(session.trace) + outs && Reacted(n, n', packet, from, CameraOf(session), outs)
  {
    n', outs := n, [];
    if Some(from) != n.relayPort {
      return;
    }
    var request := RequestFromAck(session.uid, from, packet);
    if request.None? {
      return;
    }
    n' := n.(request := Some(request.value));
    outs := session.Broadcast(request.value, Directory(session.servers));
  }

  /** Packets from the directory servers and relays. */
  method Consult(session: CS2Session, packet: bytes, from: Address, n: Progress)
    returns (n': Progress, ghost outs: seq<Traffic>)
    requires |packet| >= 4 && (forall r | r in n.relays :: Usable(r))
    requires !(Kind(packet) == PUNCH || Kind(packet) == READY || Kind(packet) == RELAY_READY)
    modifies session`trace, session`closeTargets
    ensures session.trace == old(session.trace) + outs && Reacted(n, n', packet, from, CameraOf(session), outs)
    ensures session.closeTargets == old(session.closeTargets) + Touched(packet, from, CameraOf(session))
  {
    var kind, directory := packet[..2], Directory(session.servers);
    n', outs := n, [];
    if kind == LOOKUP_ANSWER && from in directory && |packet| >= 20 {
      var endpoint := DecodeAddress(packet[4..20]);
      if endpoint.Some? {
        n' := n.(endpoints := n.endpoints + {endpoint.value});
        session.closeTargets := session.closeTargets + {endpoint.value};
        SendTwice(session, Punch(session.uid), endpoint.value);
        outs := Twice(Punch(session.uid), endpoint.value);
      }
    } else if kind == RELAY_LIST && from in directory {
      n' := n.(relays := n.relays + RelayList(packet));
    } else if kind == RELAY_HELLO_ANSWER && from in n.relays {
      if n.relayPort.None? {
        n' := n.(relayPort := Some(from));
        session.SendClear(Bare(RELAY_PORT_ASK), from);
        outs := [Out(Bare(RELAY_PORT_ASK), from)];
      }
    } else if kind == RELAY_PORT && from in n.relays {
      n', outs := ReceiveRelayPort(session, packet, from, n);
    } else if kind == RELAY_TARGET && from in directory {
      if |packet| == 24 {
        outs := ReceiveTarget(session, packet, from);
      }
    } else if kind == RELAY_PACKET && |packet| == 36 {
      Knock(session, DecodeAddress(packet[4..20]));
      Knock(session, DecodeAddress(packet[20..36]));
      outs := Knocks(DecodeAddress(packet[4..20])) + Knocks(DecodeAddress(packet[20..36]));
    }
  }

  method ReceiveTarget(session: CS2Session, packet: bytes, from: Address) returns (ghost outs: seq<Traffic>)
    requires |packet| == 24
    modifies session`trace
    ensures session.trace == old(session.trace) + outs
    ensures var target, punch := DecodeAddress(packet[4..20]), RelayPunch(session.uid, packet[20..24]);
            outs == if target.Some? then Twice(punch, target.value) + Twice(punch, from) else []
  {
    var target, punch := DecodeAddress(packet[4..20]), RelayPunch(session.uid, packet[20..24]);
    outs := [];
    if target.Some? {
      SendTwice(session, punch, target.value);
      SendTwice(session, punch, from);
      outs := Twice(punch, target.value) + Twice(punch, from);
    }
  }

  /** Take in one packet: remember who offers itself, learn, answer, and maybe connect. */
  method Hear(session: CS2Session, packet: bytes, from: Address, n: Progress)
    returns (connected: bool, n': Progress, ghost outs: seq<Traffic>)
    requires |packet| >= 4 && (forall r | r in n.relays :: Usable(r))
    modifies session`trace, session`peer, session`connectPath, session`closeTargets
    ensures session.trace == old(session.trace) + [In(packet, from)] + outs
    ensures Reacted(n, n', packet, from, CameraOf(session), outs)
    ensures session.closeTargets == old(session.closeTargets) + Touched(packet, from, CameraOf(session))
    ensures var path := Path(packet, from, CameraOf(session));
            && connected == path.Some?
            && session.peer == (if connected then Some(from) else old(session.peer))
            && session.connectPath == (if connected then path.value else old(session.connectPath))
  {
    session.trace := session.trace + [In(packet, from)];
    if packet[..2] in {PUNCH, READY, RELAY_READY} {
      session.closeTargets := session.closeTargets + {from};
      n' := n;
      connected := Settle(session, packet, from);
      outs := OfferAnswer(packet, from, CameraOf(session));
    } else {
      connected := false;
      n', outs := Consult(session, packet, from, n);
    }
  }

  // ---------------------------------------------------------------------------------
  // The loop

  /** A packet heard completed the rendezvous, and its sender is the peer. */
  ghost predicate Completed(session: CS2Session, t: seq<Traffic>)
    reads session
  {
    exists i :: 0 <= i < |t| && t[i].In? && session.peer == Some(t[i].from)
                && Completes(t[i].packet, t[i].from, CameraOf(session), session.connectPath)
  }

  /** There is a peer, it sent the completing packet, and it will be told when the session closes. */
  ghost predicate Connected(session: CS2Session, t: seq<Traffic>)
    reads session
  {
    && Completed(session, t)
    && session.peer.Some? && session.peer.value in session.closeTargets
    && session.peer.value !in Directory(session.servers)
    && (session.preferRelay ==> session.connectPath == "relay")
  }

  /** The peer is the sender of a packet that completes the rendezvous on this path. */
  predicate Joined(received: Option<(bytes, Address)>, c: Camera, peer: Option<Address>, path: string) {
    received.Some? && peer == Some(received.value.1) && Completes(received.value.0, received.value.1, c, path)
  }

  method NextTick(session: CS2Session) returns (tick: Tick)
    requires session.Valid() && session.feed != []
    modifies session`feed, session`clock
    ensures session.Valid() && tick == old(session.feed)[0] && session.feed == old(session.feed)[1..]
    ensures tick.received.Some? ==> |tick.received.value.0| >= 4
  {
    tick := session.feed[0];
    session.feed, session.clock := session.feed[1..], tick.now;
  }

  /** At most one packet. */
  method Listen(session: CS2Session, n: Progress, received: Option<(bytes, Address)>)
    returns (ok: bool, n': Progress, ghost answer: seq<Traffic>)
    requires session.peer.None? && (received.Some? ==> |received.value.0| >= 4) && AllUsable(n)
    modifies session`trace, session`peer, session`connectPath, session`closeTargets
    ensures n' == LearnFrom(CameraOf(session), n, received) && Answers(CameraOf(session), n, received, answer)
    ensures session.trace == old(session.trace) + Exchange(received, answer)
    ensures session.closeTargets == old(session.closeTargets) + TouchedBy(CameraOf(session), received)
    ensures ok == Completing(received, CameraOf(session))
    ensures if ok then Joined(received, CameraOf(session), session.peer, session.connectPath) else session.peer.None?
  {
    ok, n', answer := false, n, [];
    if received.Some? {
      var (packet, from) := received.value;
      ok, n', answer := Hear(session, packet, from, n);
      JoinedIsExact(packet, from, CameraOf(session), session.connectPath);
      Onwards(old(session.trace), [In(packet, from)], answer);
    } else {
      assert session.closeTargets + {} == session.closeTargets && session.trace + [] == session.trace;
    }
  }

  /** Timed sends, then at most one packet. */
  method TakeTurn(session: CS2Session, n: Progress, local: bytes, ghost tick: Tick)
    returns (ok: bool, n': Progress, ghost r: Round, ghost answer: seq<Traffic>)
    requires session.Valid() && session.started && session.peer.None? && session.feed != [] && AllUsable(n)
    requires session.feed[0] == tick
    modifies session`trace, session`peer, session`connectPath, session`closeTargets, session`feed, session`clock
    ensures session.Valid() && session.feed == old(session.feed)[1..]
    ensures IsTurn(CameraOf(session), local, n, tick, r, answer) && n' == TurnProgress(CameraOf(session), n, tick)
    ensures session.trace == old(session.trace) + TurnTraffic(r, tick.received, answer)
    ensures session.closeTargets == old(session.closeTargets) + TouchedBy(CameraOf(session), tick.received)
    ensures ok == Completing(tick.received, CameraOf(session))
    ensures if ok then Joined(tick.received, CameraOf(session), session.peer, session.connectPath) else session.peer.None?
  {
    var next := NextTick(session);
    var sent;
    sent, r := SendDue(session, n, next.now, local);
    ok, n', answer := Listen(session, sent, next.received);
    TurnMade(CameraOf(session), local, n, tick, r, sent, answer);
    Onwards(old(session.trace), r.All(), Exchange(tick.received, answer));
  }

  lemma JoinedIsExact(packet: bytes, from: Address, c: Camera, path: string)
    ensures CompletesAny(packet, from, c) <==> Path(packet, from, c).Some?
    ensures Path(packet, from, c) == Some(path) <==> Completes(packet, from, c, path)
  {
    CompletingHasPath(packet, from, c);
    PathIsExact(packet, from, c, path);
  }

  lemma JoinedIsCompleted(
    c: Camera, local: bytes, ticks: seq<Tick>, rounds: seq<Round>, answers: seq<seq<Traffic>>, used: nat, t: seq<Traffic>, n: Progress,
    packet: bytes, from: Address) returns (i: nat)
    requires Conducted(c, local, ticks, rounds, answers, used, t, n) && used > 0
    requires ticks[used - 1].received == Some((packet, from))
    ensures i < |t| && t[i] == In(packet, from)
  {
    var t0, n0 := ConductedBefore(c, local, ticks, rounds, answers, used, t, n);
    i := |t0 + rounds[used - 1].All()|;
  }

  /** A turn that comes in time, behind those taken. */
  method TakeAnother(
    session: CS2Session, n: Progress, local: bytes, ghost deadline: int, ghost ticks: seq<Tick>, ghost rounds: seq<Round>,
    ghost answers: seq<seq<Traffic>>, ghost used: nat, ghost t: seq<Traffic>, ghost targets0: set<Address>)
    returns (ok: bool, n': Progress, ghost r: Round, ghost answer: seq<Traffic>)
    requires session.Valid() && session.started && session.peer.None? && session.feed != [] && session.feed[0].now < deadline
    requires used < |ticks| && session.feed == ticks[used..]
    requires Underway(CameraOf(session), local, ticks, deadline, rounds, answers, used, false, t, n, targets0, session.closeTargets)
    modifies session`trace, session`peer, session`connectPath, session`closeTargets, session`feed, session`clock
    ensures session.Valid() && session.feed == ticks[used + 1..]
    ensures session.trace == old(session.trace) + TurnTraffic(r, ticks[used].received, answer)
    ensures Underway(CameraOf(session), local, ticks, deadline, rounds + [r], answers + [answer], used + 1, ok,
                     t + TurnTraffic(r, ticks[used].received, answer), n', targets0, session.closeTargets)
    ensures if ok then Joined(ticks[used].received, CameraOf(session), session.peer, session.connectPath) else session.peer.None?
  {
    ghost var targets := session.closeTargets;
    ok, n', r, answer := TakeTurn(session, n, local, ticks[used]);
    UnderwayMore(CameraOf(session), local, ticks, deadline, rounds, answers, used, t, n, targets0, targets, r, answer);
  }

  /** Turn after turn, until a packet completes or time is up. */
  method Attempt(session: CS2Session, deadline: int, local: bytes,
                 ghost ticks: seq<Tick>, ghost before: seq<Traffic>, ghost targets0: set<Address>)
    returns (ok: bool, ghost t: seq<Traffic>, ghost n: Progress, ghost used: nat, ghost rounds: seq<Round>, ghost answers: seq<seq<Traffic>>)
    requires session.Valid() && session.started && session.peer.None?
    requires session.feed == ticks && session.trace == before && session.closeTargets == targets0
    modifies session`trace, session`peer, session`connectPath, session`closeTargets, session`feed, session`clock
    ensures session.Valid() && session.trace == before + t
    ensures AttemptEnds(CameraOf(session), ticks, deadline, used, ok)
    ensures Conducted(CameraOf(session), local, ticks, rounds, answers, used, t, n)
    ensures session.feed == ticks[used..]
    ensures session.closeTargets == targets0 + TouchedUpTo(CameraOf(session), ticks, used)
    ensures if ok then used > 0 && Joined(ticks[used - 1].received, CameraOf(session), session.peer, session.connectPath)
            else session.peer.None?
  {
    ghost var camera := CameraOf(session);
    ok, t, used, rounds, answers := false, [], 0, [], [];
    assert session.trace + t == session.trace;
    NotYetUnderway(camera, local, ticks, deadline, targets0);
    var p := NOTHING_YET;
    while !ok && !session.Late(deadline)
      invariant session.Valid() && session.trace == before + t && used <= |ticks| && session.feed == ticks[used..]
      invariant Underway(camera, local, ticks, deadline, rounds, answers, used, ok, t, p, targets0, session.closeTargets)
      invariant if ok then used > 0 && Joined(ticks[used - 1].received, camera, session.peer, session.connectPath)
                else session.peer.None?
      decreases |session.feed|
    {
      ghost var r, answer;
      ok, p, r, answer := TakeAnother(session, p, local, deadline, ticks, rounds, answers, used, t, targets0);
      Onwards(before, t, TurnTraffic(r, ticks[used].received, answer));
      t := t + TurnTraffic(r, ticks[used].received, answer);
      used, rounds, answers := used + 1, rounds + [r], answers + [answer];
    }
    n := p;
  }

  /** Close without a peer. */
  method GiveUp(session: CS2Session) returns (ghost closes: seq<Traffic>)
    requires session.peer.None?
    modifies session`trace, session`closed, session`peer
    ensures session.closed && session.peer.None? && session.trace == old(session.trace) + closes
    ensures !old(session.closed) ==> SentToAll(closes, Bare(CLOSE), session.closeTargets)
  {
    var sent;
    sent, closes := session.Close();
    if old(session.closed) {
      closes := [];
    } else {
      assert Session.Told(session.closeTargets, None) == session.closeTargets;
    }
  }

  /** What the turns of an attempt make of the session. */
  lemma AttemptIsKept(session: CS2Session, local: bytes, ticks: seq<Tick>, deadline: int, used: nat, ok: bool,
                      rounds: seq<Round>, answers: seq<seq<Traffic>>, t: seq<Traffic>, n: Progress)
    requires AttemptEnds(CameraOf(session), ticks, deadline, used, ok)
    requires Conducted(CameraOf(session), local, ticks, rounds, answers, used, t, n)
    requires TouchedUpTo(CameraOf(session), ticks, used) <= session.closeTargets
    requires ok ==> used > 0 && Joined(ticks[used - 1].received, CameraOf(session), session.peer, session.connectPath)
    ensures WellKept(t, n, CameraOf(session), session.closeTargets) && Ins(t) == Arrivals(ticks, used)
    ensures if ok then Connected(session, t) else NoneCompletes(t, CameraOf(session))
  {
    var c := CameraOf(session);
    ConductedIsKept(c, local, ticks, rounds, answers, used, t, n);
    KeptByMore(t, n, c, TouchedUpTo(c, ticks, used), session.closeTargets);
    if ok {
      var (packet, from) := ticks[used - 1].received.value;
      var i := JoinedIsCompleted(c, local, ticks, rounds, answers, used, t, n, packet, from);
      JoinedIsTouched(packet, from, c);
    } else {
      FailedHeardNone(c, ticks, deadline, used, t);
    }
  }

  method AttemptSoundly(session: CS2Session, deadline: int, local: bytes)
    returns (ok: bool, ghost t: seq<Traffic>, ghost n: Progress, ghost used: nat, ghost rounds: seq<Round>, ghost answers: seq<seq<Traffic>>)
    requires session.Valid() && session.started && session.peer.None?
    modifies session`trace, session`peer, session`connectPath, session`closeTargets, session`feed, session`clock
    ensures session.Valid() && session.trace == old(session.trace) + t
    ensures used <= |old(session.feed)| && session.feed == old(session.feed)[used..]
    ensures AttemptEnds(CameraOf(session), old(session.feed), deadline, used, ok)
    ensures Conducted(CameraOf(session), local, old(session.feed), rounds, answers, used, t, n)
    ensures WellKept(t, n, CameraOf(session), session.closeTargets) && Ins(t) == Arrivals(old(session.feed), used)
    ensures if ok then Connected(session, t) else session.peer.None? && NoneCompletes(t, CameraOf(session))
  {
    ok, t, n, used, rounds, answers := Attempt(session, deadline, local, session.feed, session.trace, session.closeTargets);
    AttemptIsKept(session, local, old(session.feed), deadline, used, ok, rounds, answers, t, n);
  }

  lemma JoinedIsTouched(packet: bytes, from: Address, c: Camera)
    requires CompletesAny(packet, from, c)
    ensures from in Touched(packet, from, c) && from !in Directory(c.servers)
  {
    OutsideDirectory(from, c.servers);
    TwoOctets(packet, 0xF1, packet[1]);
  }

  /** An attempt, and giving up if it fails. */
  method Begin(session: CS2Session, deadline: int, local: bytes, ghost ticks: seq<Tick>)
    returns (ok: bool, ghost t: seq<Traffic>, ghost n: Progress, ghost closes: seq<Traffic>, ghost used: nat,
             ghost rounds: seq<Round>, ghost answers: seq<seq<Traffic>>)
    requires session.Valid() && session.started && session.peer.None? && session.feed == ticks
    modifies session`trace, session`peer, session`closed, session`connectPath, session`closeTargets, session`feed, session`clock
    ensures session.Valid() && session.trace == old(session.trace) + t + closes
    ensures used <= |ticks| && session.feed == ticks[used..]
    ensures AttemptEnds(CameraOf(session), ticks, deadline, used, ok)
    ensures Conducted(CameraOf(session), local, ticks, rounds, answers, used, t, n)
    ensures WellKept(t, n, CameraOf(session), session.closeTargets) && Ins(t) == Arrivals(ticks, used)
    ensures ok ==> Connected(session, t) && session.closed == old(session.closed) && closes == []
    ensures !ok ==>
              && session.peer.None? && session.closed && NoneCompletes(t, CameraOf(session))
              && (!old(session.closed) ==> SentToAll(closes, Bare(CLOSE), session.closeTargets))
  {
    ok, t, n, used, rounds, answers := AttemptSoundly(session, deadline, local);
    closes := [];
    if ok {
      assert session.trace == old(session.trace) + t + [];
    } else {
      closes := GiveUp(session);
    }
  }

  /**
   Connect, or give up. `t` is the traffic of the attempt, `n` what it found out, and
   `closes` what was sent on giving up. Giving up leaves the session closed and without a
   peer, and tells everyone who offered itself or was found, except that an unusable local
   port fails before anything is sent.
   */
  method Connect(session: CS2Session, timeout: int, local: Option<Address>)
    returns (ok: bool, ghost t: seq<Traffic>, ghost n: Progress, ghost closes: seq<Traffic>, ghost used: nat,
             ghost rounds: seq<Round>, ghost answers: seq<seq<Traffic>>, ghost address: bytes)
    requires session.Valid() && (local.Some? ==> |local.value.host| == 4)
    modifies session`started, session`trace, session`peer, session`closed, session`connectPath, session`closeTargets,
             session`feed, session`clock
    ensures session.Valid()
    ensures old(session.started) ==>
              !ok && session.trace == old(session.trace) && session.peer == old(session.peer) && session.closed == old(session.closed)
    ensures ok ==>
              Connected(session, t) && session.closed == old(session.closed) && session.trace == old(session.trace) + t
    ensures !(local.Some? && 0 < local.value.port < 0x1_0000) ==> !ok && t == []
    ensures !old(session.started) && local.Some? && 0 < local.value.port < 0x1_0000 ==>
              && WellKept(t, n, CameraOf(session), session.closeTargets)
              && AttemptEnds(CameraOf(session), old(session.feed), old(session.clock) + timeout, used, ok)
              && session.feed == old(session.feed)[used..] && Ins(t) == Arrivals(old(session.feed), used)
              && EncodeAddress(local.value.host, local.value.port) == Some(address)
              && Conducted(CameraOf(session), address, old(session.feed), rounds, answers, used, t, n)
              && (!ok ==> NoneCompletes(t, CameraOf(session)))
    ensures !ok && !old(session.started) ==>
              session.peer.None? && session.trace == old(session.trace) + t + closes
    ensures !ok && !old(session.started) && (local.Some? ==> 0 < local.value.port < 0x1_0000) ==>
              session.closed && (!old(session.closed) ==> SentToAll(closes, Bare(CLOSE), session.closeTargets))
  {
    t, n, closes, ok, used, rounds, answers, address := [], NOTHING_YET, [], false, 0, [], [], [];
    if session.started {
      return;
    }
    var deadline := session.clock + timeout;
    session.started := true;
    if local.None? {
      closes := GiveUp(session);
      return;
    }
    var localAddress := EncodeAddress(local.value.host, local.value.port);
    if localAddress.None? {
      return;
    }
    address := localAddress.value;
    ok, t, n, closes, used, rounds, answers := Begin(session, deadline, localAddress.value, old(session.feed));
  }
}
