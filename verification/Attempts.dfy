/**
 How an attempt to connect ends: which packet completes the rendezvous, judged by its octets
 and its sender alone, and which turns are taken until one does or time is up.
 */
module Attempts {
  import opened Octets
  import opened Packets
  import opened Environment
  import opened Negotiation
  import opened Rendezvous

  /**
   Twenty-four octets that end in the camera's identifier, from none of the directory servers:
   F1 84, or F1 41 or F1 42 unless a relay is preferred.
   */
  predicate CompletesAny(packet: bytes, from: Address, c: Camera) {
    && |packet| == 24 && packet[0] == 0xF1 && packet[4..24] == c.uid
    && (forall s | s in c.servers :: from != Address(s, 32100))
    && (packet[1] == 0x84 || (!c.preferRelay && (packet[1] == 0x41 || packet[1] == 0x42)))
  }

  /** The first completes the rendezvous on the relay, the others on a direct path. */
  predicate Completes(packet: bytes, from: Address, c: Camera, path: string) {
    && CompletesAny(packet, from, c)
    && path == (if packet[1] == 0x84 then "relay" else if packet[1] == 0x41 then "direct-punch" else "direct-accept")
  }

  lemma TwoOctets(packet: bytes, a: byte, b: byte)
    requires |packet| >= 2
    ensures packet[..2] == [a, b] <==> packet[0] == a && packet[1] == b
  {
  }

  lemma OutsideDirectory(from: Address, servers: seq<bytes>)
    ensures from !in Directory(servers) <==> forall s | s in servers :: from != Address(s, 32100)
  {
  }

  lemma OffersIsExact(packet: bytes, from: Address, second: byte, c: Camera)
    ensures Offers(packet, from, [0xF1, second], c) <==>
            && |packet| == 24 && packet[0] == 0xF1 && packet[1] == second && packet[4..24] == c.uid
            && forall s | s in c.servers :: from != Address(s, 32100)
  {
    OutsideDirectory(from, c.servers);
    if |packet| == 24 {
      TwoOctets(packet, 0xF1, second);
    }
  }

  /** The rules connect on a path exactly if the packet's octets and its sender say so. */
  lemma PathIsExact(packet: bytes, from: Address, c: Camera, path: string)
    ensures Path(packet, from, c) == Some(path) <==> Completes(packet, from, c, path)
  {
    OffersIsExact(packet, from, 0x84, c);
    OffersIsExact(packet, from, 0x41, c);
    OffersIsExact(packet, from, 0x42, c);
    PathsDiffer();
  }

  lemma PathsDiffer()
    ensures "relay" != "direct-punch" && "relay" != "direct-accept" && "direct-punch" != "direct-accept"
  {
    assert |"relay"| == 5 && |"direct-punch"| == 12 && |"direct-accept"| == 13;
  }

  predicate Completing(received: Option<(bytes, Address)>, c: Camera) {
    received.Some? && CompletesAny(received.value.0, received.value.1, c)
  }

  lemma CompletingHasPath(packet: bytes, from: Address, c: Camera)
    ensures CompletesAny(packet, from, c) <==> Path(packet, from, c).Some?
  {
    if CompletesAny(packet, from, c) {
      var path := if packet[1] == 0x84 then "relay" else if packet[1] == 0x41 then "direct-punch" else "direct-accept";
      PathIsExact(packet, from, c, path);
    }
    if Path(packet, from, c).Some? {
      PathIsExact(packet, from, c, Path(packet, from, c).value);
    }
  }

  // ---------------------------------------------------------------------------------
  // What was heard

  /** The packets received in the first `n` turns. */
  function Arrivals(ticks: seq<Tick>, n: nat): seq<(bytes, Address)>
    requires n <= |ticks|
  {
    if n == 0 then []
    else Arrivals(ticks, n - 1) + (if ticks[n - 1].received.Some? then [ticks[n - 1].received.value] else [])
  }

  /** The packets that came in. */
  function Ins(t: seq<Traffic>): seq<(bytes, Address)> {
    if t == [] then []
    else
      var last := t[|t| - 1];
      Ins(t[..|t| - 1]) + (if last.In? then [(last.packet, last.from)] else [])
  }

  lemma InsSnoc(t: seq<Traffic>, last: Traffic)
    ensures Ins(t + [last]) == Ins(t) + (if last.In? then [(last.packet, last.from)] else [])
  {
    assert (t + [last])[..|t|] == t;
  }

  lemma {:induction false} InsBeforeOuts(t: seq<Traffic>, outs: seq<Traffic>)
    requires AllOut(outs)
    ensures Ins(t + outs) == Ins(t)
  {
    if outs == [] {
      assert t + outs == t;
    } else {
      var front, last := outs[..|outs| - 1], outs[|outs| - 1];
      assert t + outs == (t + front) + [last];
      InsSnoc(t + front, last);
      InsBeforeOuts(t, front);
    }
  }

  lemma {:induction false} InIsAmongIns(t: seq<Traffic>, i: nat)
    requires i < |t| && t[i].In?
    ensures (t[i].packet, t[i].from) in Ins(t)
  {
    if i < |t| - 1 {
      InIsAmongIns(t[..|t| - 1], i);
    }
  }

  lemma {:induction false} ArrivedInTurn(ticks: seq<Tick>, n: nat, received: (bytes, Address)) returns (i: nat)
    requires n <= |ticks| && received in Arrivals(ticks, n)
    ensures i < n && ticks[i].received == Some(received)
  {
    if ticks[n - 1].received == Some(received) {
      i := n - 1;
    } else {
      i := ArrivedInTurn(ticks, n - 1, received);
    }
  }

  // ---------------------------------------------------------------------------------
  // The turns of an attempt

  /** A packet, if one came, and the answer to it. */
  function Exchange(received: Option<(bytes, Address)>, answer: seq<Traffic>): seq<Traffic> {
    match received
    case None => []
    case Some((packet, from)) => [In(packet, from)] + answer
  }

  function LearnFrom(c: Camera, n: Progress, received: Option<(bytes, Address)>): Progress {
    match received
    case None => n
    case Some((packet, from)) => Learn(n, packet, from, c)
  }

  predicate Answers(c: Camera, n: Progress, received: Option<(bytes, Address)>, answer: seq<Traffic>) {
    match received
    case None => true
    case Some((packet, from)) => IsAnswer(answer, n, packet, from, c)
  }

  /** What one turn puts on the wire and takes from it. */
  function TurnTraffic(r: Round, received: Option<(bytes, Address)>, answer: seq<Traffic>): seq<Traffic> {
    r.All() + Exchange(received, answer)
  }

  function TurnProgress(c: Camera, n: Progress, tick: Tick): Progress {
    LearnFrom(c, AfterRound(n, tick.now), tick.received)
  }

  /** What is due is sent, and what is received is answered. */
  predicate IsTurn(c: Camera, local: bytes, n: Progress, tick: Tick, r: Round, answer: seq<Traffic>) {
    IsRound(r, n, tick.now, c, local) && Answers(c, AfterRound(n, tick.now), tick.received, answer)
  }

  lemma TurnMade(c: Camera, local: bytes, n: Progress, tick: Tick, r: Round, sent: Progress, answer: seq<Traffic>)
    requires IsRound(r, n, tick.now, c, local) && sent == AfterRound(n, tick.now) && Answers(c, sent, tick.received, answer)
    ensures IsTurn(c, local, n, tick, r, answer)
  {
  }

  /** What is known after the first `used` turns. */
  function ProgressAt(c: Camera, ticks: seq<Tick>, used: nat): Progress
    requires used <= |ticks|
  {
    if used == 0 then NOTHING_YET else TurnProgress(c, ProgressAt(c, ticks, used - 1), ticks[used - 1])
  }

  function TrafficOf(ticks: seq<Tick>, rounds: seq<Round>, answers: seq<seq<Traffic>>): seq<Traffic>
    requires |rounds| == |answers| <= |ticks|
  {
    if rounds == [] then []
    else
      var i := |rounds| - 1;
      TrafficOf(ticks, rounds[..i], answers[..i]) + TurnTraffic(rounds[i], ticks[i].received, answers[i])
  }

  /** Turn `i` is one, from what was known before it. */
  predicate TurnAt(c: Camera, local: bytes, ticks: seq<Tick>, rounds: seq<Round>, answers: seq<seq<Traffic>>, i: nat) {
    && i < |rounds| && i < |answers| && i < |ticks|
    && IsTurn(c, local, ProgressAt(c, ticks, i), ticks[i], rounds[i], answers[i])
  }

  /** The traffic and the knowledge of an attempt are those of its turns, one after the other. */
  predicate Conducted(
    c: Camera, local: bytes, ticks: seq<Tick>, rounds: seq<Round>, answers: seq<seq<Traffic>>, used: nat, t: seq<Traffic>, n: Progress)
  {
    && used == |rounds| == |answers| <= |ticks|
    && (forall i | 0 <= i < used :: TurnAt(c, local, ticks, rounds, answers, i))
    && t == TrafficOf(ticks, rounds, answers) && n == ProgressAt(c, ticks, used)
  }

  lemma TrafficSnoc(ticks: seq<Tick>, rounds: seq<Round>, answers: seq<seq<Traffic>>, r: Round, answer: seq<Traffic>)
    requires |rounds| == |answers| < |ticks|
    ensures TrafficOf(ticks, rounds + [r], answers + [answer]) ==
            TrafficOf(ticks, rounds, answers) + TurnTraffic(r, ticks[|rounds|].received, answer)
  {
    assert (rounds + [r])[..|rounds|] == rounds && (answers + [answer])[..|rounds|] == answers;
  }

  lemma ConductedMore(
    c: Camera, local: bytes, ticks: seq<Tick>, rounds: seq<Round>, answers: seq<seq<Traffic>>, used: nat, t: seq<Traffic>, n: Progress,
    r: Round, answer: seq<Traffic>)
    requires Conducted(c, local, ticks, rounds, answers, used, t, n) && used < |ticks|
    requires IsTurn(c, local, n, ticks[used], r, answer)
    ensures Conducted(c, local, ticks, rounds + [r], answers + [answer], used + 1,
                      t + TurnTraffic(r, ticks[used].received, answer), TurnProgress(c, n, ticks[used]))
  {
    TrafficSnoc(ticks, rounds, answers, r, answer);
    forall i | 0 <= i < used + 1
      ensures TurnAt(c, local, ticks, rounds + [r], answers + [answer], i)
    {
      assert i < used ==> TurnAt(c, local, ticks, rounds, answers, i);
    }
  }

  // ---------------------------------------------------------------------------------
  // What follows for the traffic of an attempt

  /** Whom the packets of the first `n` turns make one to close. */
  function TouchedUpTo(c: Camera, ticks: seq<Tick>, n: nat): set<Address>
    requires n <= |ticks|
  {
    if n == 0 then {} else TouchedUpTo(c, ticks, n - 1) + TouchedBy(c, ticks[n - 1].received)
  }

  function TouchedBy(c: Camera, received: Option<(bytes, Address)>): set<Address> {
    match received
    case None => {}
    case Some((packet, from)) => Touched(packet, from, c)
  }

  predicate AllUsable(n: Progress) {
    (forall e | e in n.endpoints :: Usable(e)) && (forall r | r in n.relays :: Usable(r))
  }

  lemma LearnKeepsUsable(n: Progress, packet: bytes, from: Address, c: Camera)
    requires AllUsable(n)
    ensures AllUsable(Learn(n, packet, from, c))
  {
    if |packet| >= 8 && |packet| == 8 + 16 * (packet[4] as int) {
      ListedAreUsable(packet, packet[4]);
    }
  }

  lemma TurnKeepsUsable(c: Camera, n: Progress, tick: Tick)
    requires AllUsable(n)
    ensures AllUsable(TurnProgress(c, n, tick))
  {
    if tick.received.Some? {
      LearnKeepsUsable(AfterRound(n, tick.now), tick.received.value.0, tick.received.value.1, c);
    }
  }

  lemma TurnIsKept(
    c: Camera, local: bytes, tick: Tick, r: Round, answer: seq<Traffic>, t: seq<Traffic>, n: Progress, targets: set<Address>)
    requires WellKept(t, n, c, targets) && IsTurn(c, local, n, tick, r, answer)
    ensures WellKept(t + TurnTraffic(r, tick.received, answer), TurnProgress(c, n, tick), c, targets + TouchedBy(c, tick.received))
    ensures Ins(t + TurnTraffic(r, tick.received, answer)) == Ins(t) + (if tick.received.Some? then [tick.received.value] else [])
  {
    RoundIsWellKept(r, t, n, tick.now, c, local, targets);
    InsBeforeOuts(t, r.All());
    match tick.received
    case None =>
      assert targets + {} == targets;
      assert t + r.All() == t + (r.All() + []);
    case Some((packet, from)) =>
      var sent, arrival := t + r.All(), [In(packet, from)];
      PacketIsWellKept(answer, sent, AfterRound(n, tick.now), packet, from, c, targets);
      InsSnoc(sent, In(packet, from));
      InsBeforeOuts(sent + arrival, answer);
      Regrouped(t, r.All(), arrival, answer);
  }

  lemma Regrouped(t: seq<Traffic>, a: seq<Traffic>, b: seq<Traffic>, c: seq<Traffic>)
    ensures t + a + b + c == t + (a + (b + c))
  {
  }

  lemma ConductedBefore(
    c: Camera, local: bytes, ticks: seq<Tick>, rounds: seq<Round>, answers: seq<seq<Traffic>>, used: nat, t: seq<Traffic>, n: Progress)
    returns (t0: seq<Traffic>, n0: Progress)
    requires Conducted(c, local, ticks, rounds, answers, used, t, n) && used > 0
    ensures Conducted(c, local, ticks, rounds[..used - 1], answers[..used - 1], used - 1, t0, n0)
    ensures IsTurn(c, local, n0, ticks[used - 1], rounds[used - 1], answers[used - 1])
    ensures t == t0 + TurnTraffic(rounds[used - 1], ticks[used - 1].received, answers[used - 1])
    ensures n == TurnProgress(c, n0, ticks[used - 1])
  {
    var rounds0, answers0 := rounds[..used - 1], answers[..used - 1];
    t0, n0 := TrafficOf(ticks, rounds0, answers0), ProgressAt(c, ticks, used - 1);
    assert TurnAt(c, local, ticks, rounds, answers, used - 1);
    forall i | 0 <= i < used - 1
      ensures TurnAt(c, local, ticks, rounds0, answers0, i)
    {
      assert TurnAt(c, local, ticks, rounds, answers, i);
    }
  }

  lemma NothingIsKept(c: Camera)
    ensures WellKept([], NOTHING_YET, c, {}) && AllUsable(NOTHING_YET)
  {
  }

  /** The traffic of any attempt is well kept, and what came in is what its turns received. */
  lemma {:induction false} ConductedIsKept(
    c: Camera, local: bytes, ticks: seq<Tick>, rounds: seq<Round>, answers: seq<seq<Traffic>>, used: nat, t: seq<Traffic>, n: Progress)
    requires Conducted(c, local, ticks, rounds, answers, used, t, n)
    ensures WellKept(t, n, c, TouchedUpTo(c, ticks, used)) && Ins(t) == Arrivals(ticks, used)
    decreases used
  {
    if used == 0 {
      NothingIsKept(c);
    } else {
      var t0, n0 := ConductedBefore(c, local, ticks, rounds, answers, used, t, n);
      ConductedIsKept(c, local, ticks, rounds[..used - 1], answers[..used - 1], used - 1, t0, n0);
      TurnIsKept(c, local, ticks[used - 1], rounds[used - 1], answers[used - 1], t0, n0, TouchedUpTo(c, ticks, used - 1));
    }
  }

  lemma KeptByMore(t: seq<Traffic>, n: Progress, c: Camera, targets: set<Address>, more: set<Address>)
    requires WellKept(t, n, c, targets) && targets <= more
    ensures WellKept(t, n, c, more)
  {
  }

  // ---------------------------------------------------------------------------------
  // How an attempt ends

  /** Turn `i` comes in time and does not complete the rendezvous. */
  predicate Fruitless(c: Camera, ticks: seq<Tick>, deadline: int, i: nat) {
    i < |ticks| && ticks[i].now < deadline && !Completing(ticks[i].received, c)
  }

  /** `used` turns were taken in time, and only the last of them may have completed the rendezvous. */
  predicate Taken(c: Camera, ticks: seq<Tick>, deadline: int, used: nat, ok: bool) {
    && used <= |ticks| && (ok ==> used > 0 && ticks[used - 1].now < deadline && Completing(ticks[used - 1].received, c))
    && forall i | 0 <= i < (if ok then used - 1 else used) :: Fruitless(c, ticks, deadline, i)
  }

  lemma TakenMore(c: Camera, ticks: seq<Tick>, deadline: int, used: nat)
    requires Taken(c, ticks, deadline, used, false) && used < |ticks| && ticks[used].now < deadline
    ensures Taken(c, ticks, deadline, used + 1, Completing(ticks[used].received, c))
  {
  }

  /** The turns are taken in vain but for the last, which completes the rendezvous or does not come in time. */
  predicate AttemptEnds(c: Camera, ticks: seq<Tick>, deadline: int, used: nat, ok: bool) {
    Taken(c, ticks, deadline, used, ok) && (!ok && used < |ticks| ==> ticks[used].now >= deadline)
  }

  /** Turn `n` completes the rendezvous, and comes in time, as does every turn before it. */
  predicate OfferedInTime(c: Camera, ticks: seq<Tick>, deadline: int, n: nat) {
    n < |ticks| && Completing(ticks[n].received, c) && forall i | 0 <= i <= n :: ticks[i].now < deadline
  }

  /** An attempt connects if and only if a completing packet comes in time. */
  lemma ConnectsIffOffered(c: Camera, ticks: seq<Tick>, deadline: int, used: nat, ok: bool)
    requires AttemptEnds(c, ticks, deadline, used, ok)
    ensures ok <==> exists n: nat :: OfferedInTime(c, ticks, deadline, n)
  {
    if ok {
      forall i | 0 <= i < used - 1
        ensures ticks[i].now < deadline
      {
        assert Fruitless(c, ticks, deadline, i);
      }
      assert OfferedInTime(c, ticks, deadline, used - 1);
    } else {
      forall n: nat
        ensures !OfferedInTime(c, ticks, deadline, n)
      {
        assert n < used ==> Fruitless(c, ticks, deadline, n);
      }
    }
  }

  /** None of what came in completes the rendezvous. */
  predicate NoneCompletes(t: seq<Traffic>, c: Camera) {
    forall i | 0 <= i < |t| && t[i].In? :: !CompletesAny(t[i].packet, t[i].from, c)
  }

  /** An attempt that failed has heard no completing packet. */
  lemma FailedHeardNone(c: Camera, ticks: seq<Tick>, deadline: int, used: nat, t: seq<Traffic>)
    requires AttemptEnds(c, ticks, deadline, used, false) && used <= |ticks| && Ins(t) == Arrivals(ticks, used)
    ensures NoneCompletes(t, c)
  {
    forall i | 0 <= i < |t| && t[i].In?
      ensures !CompletesAny(t[i].packet, t[i].from, c)
    {
      InIsAmongIns(t, i);
      var j := ArrivedInTurn(ticks, used, (t[i].packet, t[i].from));
      assert Fruitless(c, ticks, deadline, j);
    }
  }

  // ---------------------------------------------------------------------------------
  // An attempt on its way

  /** After `used` turns: what was exchanged, what is known, and whom a close will tell. */
  predicate Underway(
    c: Camera, local: bytes, ticks: seq<Tick>, deadline: int, rounds: seq<Round>, answers: seq<seq<Traffic>>, used: nat, ok: bool,
    t: seq<Traffic>, n: Progress, targets0: set<Address>, targets: set<Address>)
  {
    && Conducted(c, local, ticks, rounds, answers, used, t, n) && Taken(c, ticks, deadline, used, ok) && AllUsable(n)
    && targets == targets0 + TouchedUpTo(c, ticks, used)
  }

  lemma NotYetUnderway(c: Camera, local: bytes, ticks: seq<Tick>, deadline: int, targets: set<Address>)
    ensures Underway(c, local, ticks, deadline, [], [], 0, false, [], NOTHING_YET, targets, targets)
  {
    NothingIsKept(c);
    assert targets + {} == targets;
  }

  lemma UnderwayMore(
    c: Camera, local: bytes, ticks: seq<Tick>, deadline: int, rounds: seq<Round>, answers: seq<seq<Traffic>>, used: nat,
    t: seq<Traffic>, n: Progress, targets0: set<Address>, targets: set<Address>, r: Round, answer: seq<Traffic>)
    requires Underway(c, local, ticks, deadline, rounds, answers, used, false, t, n, targets0, targets)
    requires used < |ticks| && ticks[used].now < deadline && IsTurn(c, local, n, ticks[used], r, answer)
    ensures Underway(c, local, ticks, deadline, rounds + [r], answers + [answer], used + 1, Completing(ticks[used].received, c),
                     t + TurnTraffic(r, ticks[used].received, answer), TurnProgress(c, n, ticks[used]),
                     targets0, targets + TouchedBy(c, ticks[used].received))
  {
    ConductedMore(c, local, ticks, rounds, answers, used, t, n, r, answer);
    TakenMore(c, ticks, deadline, used);
    TurnKeepsUsable(c, n, ticks[used]);
  }
}
