/**
 The connected half of `CS2Session`: sending, acknowledging, receiving and reading on the
 eight channels.

 The outside world is `feed`: what the clock shows and the socket yields at each turn of a
 waiting loop. Once it is used up, time passes without traffic. `trace` records what went
 in and out at the socket. `arrived` and `taken` are, per channel, all bytes ever appended
 for a reader and all bytes ever returned to one.
 */
module Session {
  import opened Octets
  import opened Channel
  import opened Packets
  import opened Environment
  import opened Retransmission
  import opened Turns

  const MAX_FRAME_BYTES: int := 8 * 1024 * 1024

  /** What one pass over the pending map put on the wire: the frames it counted as resent, once each. */
  ghost predicate ResentExactly(
    resent: seq<Traffic>, order: seq<Key>, pending: map<Key, Entry>, after: map<Key, Entry>, to: Address)
  {
    && |order| == |resent|
    && (forall i | 0 <= i < |order| :: order[i] in pending && resent[i] == Out(pending[order[i]].packet, to))
    && (forall i, j | 0 <= i < j < |order| :: order[i] != order[j])
    && (forall k | k in after && k in pending :: k in order <==> after[k] != pending[k])
  }

  /** The packets of the first `n` chunks of one write, numbered from `first`. */
  function DataPackets(channel: nat, first: nat, payload: bytes, n: nat, to: Address): seq<Traffic>
    requires channel < CHANNELS
  {
    if n == 0 then []
    else
      DataPackets(channel, first, payload, n - 1, to)
      + [Out(DataPacket(channel, Wrap(first + (n - 1)), ChunkOf(payload, n - 1)), to)]
  }

  lemma MorePackets(channel: nat, first: nat, payload: bytes, n: nat, to: Address)
    requires channel < CHANNELS
    ensures DataPackets(channel, first, payload, n + 1, to) ==
            DataPackets(channel, first, payload, n, to)
            + [Out(DataPacket(channel, Wrap(first + n), ChunkOf(payload, n)), to)]
  {
  }

  lemma SetAgain(s: seq<nat>, i: nat, a: nat, b: nat)
    requires i < |s|
    ensures s[i := a][i := b] == s[i := b]
  {
  }

  /** The keys of `n` consecutive frames of a channel. */
  function KeysFrom(channel: nat, first: nat, n: nat): (keys: seq<Key>)
    ensures |keys| == n
  {
    if n == 0 then [] else KeysFrom(channel, first, n - 1) + [(channel, Wrap(first + (n - 1)))]
  }

  lemma MoreKeys(channel: nat, first: nat, n: nat)
    ensures KeysFrom(channel, first, n + 1) == KeysFrom(channel, first, n) + [(channel, Wrap(first + n))]
  {
  }

  lemma NextNumber(first: nat, n: nat)
    ensures Wrap(first + n) < MODULUS && Successor(Wrap(first + n)) == Wrap(first + (n + 1))
  {
    CircleIsModular(0, 0, first + n, 0);
  }

  /** The pending map once the first `n` chunks of a write were sent. */
  function SentPending(pending: map<Key, Entry>, channel: nat, first: nat, payload: bytes, now: int, n: nat): map<Key, Entry>
    requires channel < CHANNELS
  {
    if n == 0 then pending
    else
      var sequence := Wrap(first + (n - 1));
      SentPending(pending, channel, first, payload, now, n - 1)[
        (channel, sequence) := Entry(DataPacket(channel, sequence, ChunkOf(payload, n - 1)), now, 1)]
  }

  lemma MorePending(pending: map<Key, Entry>, channel: nat, first: nat, payload: bytes, now: int, n: nat)
    requires channel < CHANNELS && Wrap(first + n) < MODULUS
    ensures SentPending(pending, channel, first, payload, now, n + 1) ==
            SentPending(pending, channel, first, payload, now, n)[
              (channel, Wrap(first + n)) := Entry(DataPacket(channel, Wrap(first + n), ChunkOf(payload, n)), now, 1)]
  {
  }

  /** Keys, and the pending map that holds them all, once the first `i` chunks were sent. */
  predicate Awaiting(
    pending0: map<Key, Entry>, channel: nat, first: nat, payload: bytes, now: int, i: nat, pending: map<Key, Entry>, keys: seq<Key>)
  {
    && channel < CHANNELS && AllPending(keys, pending)
    && pending == SentPending(pending0, channel, first, payload, now, i)
  }

  lemma AwaitingMore(
    pending0: map<Key, Entry>, channel: nat, first: nat, payload: bytes, now: int, i: nat, pending: map<Key, Entry>, keys: seq<Key>)
    requires Awaiting(pending0, channel, first, payload, now, i, pending, keys) && Wrap(first + i) < MODULUS
    ensures var number := Wrap(first + i);
            Awaiting(pending0, channel, first, payload, now, i + 1,
                     pending[(channel, number) := Entry(DataPacket(channel, number, ChunkOf(payload, i)), now, 1)],
                     keys + [(channel, number)])
  {
    MorePending(pending0, channel, first, payload, now, i);
    OneMorePending(keys, pending, (channel, Wrap(first + i)), Entry(DataPacket(channel, Wrap(first + i), ChunkOf(payload, i)), now, 1));
  }

  /** The first `i` chunks of a write have been sent: their numbers, packets and keys. */
  ghost predicate Sent(
    outgoing0: seq<nat>, trace0: seq<Traffic>, channel: nat, payload: bytes, to: Address, i: nat,
    outgoing: seq<nat>, trace: seq<Traffic>, keys: seq<Key>)
  {
    && channel < CHANNELS && channel < |outgoing0|
    && outgoing == outgoing0[channel := Wrap(outgoing0[channel] + i)]
    && trace == trace0 + DataPackets(channel, outgoing0[channel], payload, i, to)
    && keys == KeysFrom(channel, outgoing0[channel], i)
  }

  lemma NothingSent(outgoing0: seq<nat>, trace0: seq<Traffic>, channel: nat, payload: bytes, to: Address)
    requires channel < CHANNELS && channel < |outgoing0| && outgoing0[channel] < MODULUS
    ensures Sent(outgoing0, trace0, channel, payload, to, 0, outgoing0, trace0, [])
  {
  }

  lemma SentMore(
    outgoing0: seq<nat>, trace0: seq<Traffic>, channel: nat, payload: bytes, to: Address, i: nat,
    outgoing: seq<nat>, trace: seq<Traffic>, keys: seq<Key>)
    requires Sent(outgoing0, trace0, channel, payload, to, i, outgoing, trace, keys) && Wrap(outgoing0[channel] + i) < MODULUS
    ensures var number := Wrap(outgoing0[channel] + i);
            Sent(outgoing0, trace0, channel, payload, to, i + 1, outgoing[channel := Wrap(outgoing0[channel] + (i + 1))],
                 trace + [Out(DataPacket(channel, number, ChunkOf(payload, i)), to)], keys + [(channel, number)])
  {
    var first := outgoing0[channel];
    var sent, more := DataPackets(channel, first, payload, i, to), [Out(DataPacket(channel, Wrap(first + i), ChunkOf(payload, i)), to)];
    MoreKeys(channel, first, i);
    SetAgain(outgoing0, channel, Wrap(first + i), Wrap(first + (i + 1)));
    MorePackets(channel, first, payload, i, to);
    Onwards(trace0, sent, more);
    assert trace + more == trace0 + (sent + more);
  }

  /** Whom a close tells. */
  function Told(targets: set<Address>, peer: Option<Address>): set<Address> {
    if peer.Some? then targets + {peer.value} else targets
  }

  lemma OneMorePending(keys: seq<Key>, pending: map<Key, Entry>, key: Key, e: Entry)
    requires AllPending(keys, pending)
    ensures AllPending(keys + [key], pending[key := e])
  {
  }

  class CS2Session {
    const uid: bytes
    const servers: seq<bytes>
    const preferRelay: bool
    var started: bool
    var connectPath: string
    var peer: Option<Address>
    var closed: bool
    var outgoing: seq<nat>
    var channels: seq<Receiver>
    var pending: map<Key, Entry>
    var closeTargets: set<Address>
    var feed: seq<Tick>
    var clock: int
    var trace: seq<Traffic>
    ghost var taken: seq<bytes>

    ghost predicate Valid()
      reads this
    {
      && |outgoing| == |channels| == |taken| == CHANNELS
      && (forall c | 0 <= c < CHANNELS :: outgoing[c] < MODULUS)
      && (forall i | 0 <= i < |feed| :: feed[i].received.Some? ==> |feed[i].received.value.0| >= 4)
      && (peer.Some? ==> started)
    }

    constructor (uid: bytes, servers: seq<bytes>, preferRelay: bool, clock: int, feed: seq<Tick>)
      requires forall i | 0 <= i < |feed| :: feed[i].received.Some? ==> |feed[i].received.value.0| >= 4
      ensures Valid() && !started && !closed && peer.None? && pending == map[] && closeTargets == {} && trace == []
      ensures this.uid == uid && this.servers == servers && this.preferRelay == preferRelay
      ensures this.clock == clock && this.feed == feed
      ensures forall c | 0 <= c < CHANNELS :: outgoing[c] == 0 && channels[c] == FRESH && taken[c] == []
    {
      this.uid, this.servers, this.preferRelay := uid, servers, preferRelay;
      this.clock, this.feed := clock, feed;
      started, closed, peer, connectPath := false, false, None, "";
      outgoing, channels := seq(CHANNELS, _ => 0), seq(CHANNELS, _ => FRESH);
      pending, closeTargets, trace, taken := map[], {}, [], seq(CHANNELS, _ => []);
    }

    /** `connected` in the source. */
    predicate Open()
      reads this
    {
      peer.Some? && !closed
    }

    /** All bytes ever appended to the channel's buffer. */
    ghost function Arrived(c: nat): bytes
      reads this
      requires c < |channels| && c < |taken|
    {
      taken[c] + channels[c].buffer
    }

    method SendClear(packet: bytes, to: Address)
      modifies this`trace
      ensures trace == old(trace) + [Out(packet, to)]
    {
      trace := trace + [Out(packet, to)];
    }

    method HandleAck(packet: bytes)
      modifies this`pending
      ensures pending == old(pending) - AckedKeys(packet)
    {
      var count := AckCount(packet);
      if count.None? {
        return;
      }
      var channel := packet[5];
      for offset := 0 to count.value
        invariant pending == old(pending) - AckedAmong(packet, offset)
      {
        var key := (channel, Big16(packet[8 + 2 * offset], packet[9 + 2 * offset]));
        pending := pending - {key};
      }
    }

    /** A well-formed frame is acknowledged and handed to its channel's receiver. */
    method HandleData(packet: bytes)
      requires Valid() && peer.Some?
      modifies this`trace, this`channels
      ensures Valid()
      ensures ParseData(packet).None? ==> trace == old(trace) && channels == old(channels)
      ensures ParseData(packet).Some? ==>
                var Frame(c, sequence, body) := ParseData(packet).value;
                && trace == old(trace) + [Out(AckPacket(packet[5], packet[6], packet[7]), peer.value)]
                && channels == old(channels)[c := Accept(old(channels)[c], sequence, body)]
    {
      var frame := ParseData(packet);
      if frame.None? {
        return;
      }
      var Frame(c, sequence, body) := frame.value;
      SendClear(AckPacket(packet[5], packet[6], packet[7]), peer.value);
      var Receiver(expected, buffer, held) := channels[c];
      if sequence == expected {
        buffer := buffer + body;
        expected := Successor(expected);
        while expected in held
          invariant Drain(Receiver(expected, buffer, held)) == Drain(AppendExpected(old(channels)[c], body))
          decreases |held|
        {
          buffer := buffer + held[expected];
          held := held - {expected};
          expected := Successor(expected);
        }
        channels := channels[c := Receiver(expected, buffer, held)];
      } else if sequence !in held && |held| < REORDER_LIMIT {
        var distance := Distance(sequence, expected);
        if 0 < distance < HALF {
          held := held[sequence := body];
          channels := channels[c := Receiver(expected, buffer, held)];
        }
      }
    }

    /** One pass over the pending map, in an order the map chooses; nothing without a peer. */
    method Retransmit(now: int)
      returns (ghost exhausted: Option<Key>, ghost order: seq<Key>, ghost resent: seq<Traffic>, ok: bool)
      modifies this`pending, this`trace
      ensures ok == exhausted.None? && trace == old(trace) + resent
      ensures peer.None? ==> ok && resent == [] && pending == old(pending)
      ensures peer.Some? ==>
                && PassOutcome(old(pending), now, pending, exhausted)
                && ResentExactly(resent, order, old(pending), pending, peer.value)
    {
      ghost var before := pending;
      ok, order, resent, exhausted := true, [], [], None;
      if peer.None? {
        return;
      }
      var todo := pending.Keys;
      while todo != {}
        invariant ok && exhausted.None?
        invariant todo <= before.Keys && pending.Keys == before.Keys
        invariant forall k | k in todo :: pending[k] == before[k]
        invariant forall k | k in before && k !in todo ::
                    if Due(before[k], now)
                    then before[k].attempts < MAX_RETRANSMITS && pending[k] == Resent(before[k], now)
                    else pending[k] == before[k]
        invariant trace == old(trace) + resent && ResentExactly(resent, order, before, pending, peer.value)
        invariant forall i | 0 <= i < |order| :: order[i] !in todo
        decreases todo
      {
        var key :| key in todo;
        todo := todo - {key};
        var entry := pending[key];
        if now - entry.sentAt >= RETRANSMIT_MS {
          if entry.attempts >= MAX_RETRANSMITS {
            pending := pending - {key};
            ok, exhausted := false, Some(key);
            return;
          }
          SendClear(entry.packet, peer.value);
          pending := pending[key := Entry(entry.packet, now, entry.attempts + 1)];
          order, resent := order + [key], resent + [Out(entry.packet, peer.value)];
        }
      }
    }

    method Broadcast(packet: bytes, targets: set<Address>) returns (ghost outs: seq<Traffic>)
      modifies this`trace
      ensures trace == old(trace) + outs && SentToAll(outs, packet, targets)
    {
      outs := [];
      var todo := targets;
      while todo != {}
        invariant todo <= targets && trace == old(trace) + outs && SentToAll(outs, packet, targets - todo)
        decreases todo
      {
        var target :| target in todo;
        SendClear(packet, target);
        assert targets - (todo - {target}) == (targets - todo) + {target};
        todo, outs := todo - {target}, outs + [Out(packet, target)];
      }
      assert targets - todo == targets;
    }

    /** Every endpoint this session touched is told once, and the peer is forgotten. */
    method Close() returns (sent: bool, ghost outs: seq<Traffic>)
      modifies this`trace, this`closed, this`peer
      ensures closed
      ensures old(closed) ==> sent && trace == old(trace) && peer == old(peer) && outs == []
      ensures !old(closed) ==>
                && peer.None? && sent == (Told(closeTargets, old(peer)) != {})
                && trace == old(trace) + outs && SentToAll(outs, Bare(CLOSE), Told(closeTargets, old(peer)))
      ensures !old(closed) && old(peer).Some? ==> Out([0xF1, 0xF0, 0x00, 0x00], old(peer).value) in outs
      ensures !old(closed) ==> forall target | target in closeTargets :: Out([0xF1, 0xF0, 0x00, 0x00], target) in outs
    {
      outs := [];
      if closed {
        return true, outs;
      }
      var targets := closeTargets;
      if peer.Some? {
        targets := targets + {peer.value};
      }
      outs := Broadcast(Bare(CLOSE), targets);
      assert Bare(CLOSE) == [0xF1, 0xF0, 0x00, 0x00];
      sent, closed, peer := targets != {}, true, None;
    }

    /**
     One turn of a waiting loop: a retransmission pass, then at most one packet.
     `mid` is the pending map between the two, and `closes` what is sent on a close.
     */
    method Pump(now: int, received: Option<(bytes, Address)>)
      returns (ghost exhausted: Option<Key>, ghost order: seq<Key>, ghost resent: seq<Traffic>,
               ghost mid: map<Key, Entry>, ghost closes: seq<Traffic>, ok: bool)
      requires Valid() && (received.Some? ==> |received.value.0| >= 4)
      modifies this`pending, this`trace, this`channels, this`peer, this`closed
      ensures Valid() && BuffersGrow(old(channels), channels)
      ensures old(peer).None? ==> exhausted.None? && resent == [] && mid == old(pending)
      ensures old(peer).Some? ==>
                && PassOutcome(old(pending), now, mid, exhausted)
                && ResentExactly(resent, order, old(pending), mid, old(peer).value)
      ensures exhausted.Some? ==> !ok && channels == old(channels) && pending == mid
      ensures exhausted.None? ==>
                && channels == Heard(old(channels), old(peer), received)
                && pending == mid - AckedBy(old(peer), received)
      ensures exhausted.Some? || received.None? ==>
                && ok == exhausted.None? && trace == old(trace) + resent
                && peer == old(peer) && closed == old(closed)
      ensures exhausted.None? && received.Some? ==>
                var (packet, from) := received.value;
                var heard := old(trace) + resent + [In(packet, from)];
                if !FromPeer(old(peer), from) then
                  ok && trace == heard && peer == old(peer) && closed == old(closed)
                else if Kind(packet) != CLOSE then
                  ok && trace == heard + Reply(uid, old(peer).value, packet, from) && peer == old(peer) && closed == old(closed)
                else
                  && !ok && trace == heard + closes && closed
                  && (if old(closed) then closes == [] && peer == old(peer)
                      else peer.None? && SentToAll(closes, Bare(CLOSE), Told(closeTargets, old(peer))))
    {
      exhausted, order, resent, ok := Retransmit(now);
      mid, closes := pending, [];
      MinusNothing(mid);
      if !ok || received.None? {
        return;
      }
      var (packet, from) := received.value;
      trace := trace + [In(packet, from)];
      if Some(from) != peer {
        if peer.None? || from.host != peer.value.host {
          return;
        }
      }
      ok, closes := Dispatch(packet, from);
    }

    /** What a packet from the peer's host brings about. */
    method Dispatch(packet: bytes, from: Address) returns (ok: bool, ghost closes: seq<Traffic>)
      requires Valid() && FromPeer(peer, from) && |packet| >= 4
      modifies this`pending, this`trace, this`channels, this`peer, this`closed
      ensures Valid() && BuffersGrow(old(channels), channels)
      ensures channels == Heard(old(channels), old(peer), Some((packet, from)))
      ensures pending == old(pending) - AckedBy(old(peer), Some((packet, from)))
      ensures ok == (Kind(packet) != CLOSE)
      ensures ok ==>
                trace == old(trace) + Reply(uid, old(peer).value, packet, from) && peer == old(peer) && closed == old(closed)
      ensures !ok ==>
                && trace == old(trace) + closes && closed
                && (if old(closed) then closes == [] && peer == old(peer)
                    else peer.None? && SentToAll(closes, Bare(CLOSE), Told(closeTargets, old(peer))))
    {
      ok, closes := true, [];
      HeardExtends(channels, peer, Some((packet, from)));
      MinusNothing(pending);
      var kind := packet[..2];
      if kind == ALIVE {
        SendClear(Bare(ALIVE_ACK), from);
      } else if kind == PUNCH {
        SendClear(READY + [0x00, 0x14] + uid, from);
      } else if kind == READY {
        SendClear(Bare(READY_ACK), from);
      } else if kind == ACK {
        HandleAck(packet);
      } else if kind == DATA {
        HandleData(packet);
      } else if kind == CLOSE {
        var sent;
        sent, closes := Close();
        ok := false;
      }
    }

    /** The waiting loops give up when the clock has reached the deadline. */
    predicate Late(deadline: int)
      reads this
    {
      feed == [] || feed[0].now >= deadline
    }

    method TakeTurn() returns (ok: bool)
      requires Valid() && feed != []
      modifies this`pending, this`trace, this`channels, this`peer, this`closed, this`feed, this`clock
      ensures Valid() && feed == old(feed)[1..] && BuffersGrow(old(channels), channels)
      ensures old(trace) <= trace && pending.Keys <= old(pending).Keys
      ensures clock == old(feed)[0].now && (ok <==> !Fails(old(pending), old(peer), old(feed)[0]))
      ensures ok ==>
                && peer == old(peer) && closed == old(closed)
                && channels == Heard(old(channels), old(peer), old(feed)[0].received)
                && pending == PendingAfter(old(pending), old(peer), old(feed)[0])
    {
      var Tick(now, received) := feed[0];
      feed, clock := feed[1..], now;
      ghost var exhausted, order, resent, mid, closes;
      exhausted, order, resent, mid, closes, ok := Pump(now, received);
      if old(peer).Some? {
        PassIsResend(old(pending), now, mid, exhausted);
      }
    }

    /** The chunk after the `n` sent so far, counted from number `first`. */
    method SendChunk(channel: nat, chunk: bytes, to: Address, ghost first: nat, ghost n: nat) returns (key: Key)
      requires Valid() && channel < CHANNELS && |chunk| <= CHUNK_BYTES && outgoing[channel] == Wrap(first + n)
      modifies this`outgoing, this`trace, this`pending
      ensures Valid() && key == (channel, Wrap(first + n))
      ensures outgoing == old(outgoing)[channel := Wrap(first + (n + 1))]
      ensures trace == old(trace) + [Out(DataPacket(channel, Wrap(first + n), chunk), to)]
      ensures pending == old(pending)[key := Entry(DataPacket(channel, Wrap(first + n), chunk), clock, 1)]
    {
      NextNumber(first, n);
      var sequence := outgoing[channel];
      outgoing := outgoing[channel := Successor(sequence)];
      var packet := DataPacket(channel, sequence, chunk);
      SendClear(packet, to);
      key := (channel, sequence);
      pending := pending[key := Entry(packet, clock, 1)];
    }

    method SendChunks(channel: nat, payload: bytes, to: Address) returns (keys: seq<Key>)
      requires Valid() && channel < CHANNELS
      modifies this`outgoing, this`trace, this`pending
      ensures Valid()
      ensures Sent(old(outgoing), old(trace), channel, payload, to, ChunkCount(payload), outgoing, trace, keys)
      ensures Awaiting(old(pending), channel, old(outgoing)[channel], payload, clock, ChunkCount(payload), pending, keys)
    {
      keys := [];
      ghost var first := outgoing[channel];
      NothingSent(old(outgoing), old(trace), channel, payload, to);
      for i := 0 to ChunkCount(payload)
        invariant Valid()
        invariant Awaiting(old(pending), channel, first, payload, clock, i, pending, keys)
        invariant Sent(old(outgoing), old(trace), channel, payload, to, i, outgoing, trace, keys)
      {
        var key := SendNext(channel, payload, i, to, old(outgoing), old(trace), old(pending), keys);
        keys := keys + [key];
      }
    }

    /** The chunk with this index, after those before it. */
    method SendNext(
      channel: nat, payload: bytes, i: nat, to: Address,
      ghost outgoing0: seq<nat>, ghost trace0: seq<Traffic>, ghost pending0: map<Key, Entry>, ghost keys: seq<Key>)
      returns (key: Key)
      requires Valid() && channel < CHANNELS && Sent(outgoing0, trace0, channel, payload, to, i, outgoing, trace, keys)
      requires Awaiting(pending0, channel, outgoing0[channel], payload, clock, i, pending, keys)
      modifies this`outgoing, this`trace, this`pending
      ensures Valid() && Sent(outgoing0, trace0, channel, payload, to, i + 1, outgoing, trace, keys + [key])
      ensures Awaiting(pending0, channel, outgoing0[channel], payload, clock, i + 1, pending, keys + [key])
    {
      SentMore(outgoing0, trace0, channel, payload, to, i, outgoing, trace, keys);
      AwaitingMore(pending0, channel, outgoing0[channel], payload, clock, i, pending, keys);
      key := SendChunk(channel, ChunkOf(payload, i), to, outgoing0[channel], i);
    }

    /** One more turn of the waiting loop of `write`, if it comes in time and does not fail. */
    method AwaitOnce(
      keys: seq<Key>, deadline: int, ghost channels0: seq<Receiver>, ghost pending0: map<Key, Entry>, ghost feed0: seq<Tick>, ghost used: nat)
      returns (ok: bool)
      requires Valid() && |channels0| == CHANNELS && AllPending(keys, pending0) && SomePending(keys, pending)
      requires Patient(channels0, pending0, feed0, deadline, used, peer, channels, pending, feed)
      requires AllStillPending(keys, pending0, peer, feed0, used)
      modifies this`pending, this`trace, this`channels, this`peer, this`closed, this`feed, this`clock
      ensures Valid() && BuffersGrow(old(channels), channels) && old(trace) <= trace
      ensures ok ==>
                && |feed| < |old(feed)| && peer == old(peer) && closed == old(closed)
                && Patient(channels0, pending0, feed0, deadline, used + 1, old(peer), channels, pending, feed)
                && AllStillPending(keys, pending0, old(peer), feed0, used + 1)
      ensures !ok ==> WaitIsExact(pending0, old(peer), feed0, deadline, keys, used, false)
    {
      PendingOnceMore(keys, pending0, peer, feed0, used);
      ok := false;
      ghost var heard, waiting := channels, pending;
      if !Late(deadline) {
        ok := TakeTurn();
      }
      if ok {
        MorePatient(channels0, pending0, feed0, deadline, used, old(peer), heard, waiting);
      } else {
        WaitFails(pending0, old(peer), feed0, deadline, keys, used);
      }
    }

    /** The waiting loop of `write`: turn after turn, for as long as a key is pending and there is time. */
    method AwaitAcknowledged(
      keys: seq<Key>, deadline: int, ghost channels0: seq<Receiver>, ghost pending0: map<Key, Entry>, ghost feed0: seq<Tick>)
      returns (ok: bool, ghost used: nat)
      requires Valid() && Open() && AllPending(keys, pending)
      requires channels == channels0 && pending == pending0 && feed == feed0
      modifies this`pending, this`trace, this`channels, this`peer, this`closed, this`feed, this`clock
      ensures Valid() && BuffersGrow(channels0, channels) && old(trace) <= trace
      ensures WaitIsExact(pending0, old(peer), feed0, deadline, keys, used, ok)
      ensures ok ==>
                && Open() && peer == old(peer) && Waited(channels0, feed0, used, peer, channels, feed)
                && pending == PendingUpTo(pending0, peer, feed0, used)
    {
      ok, used := true, 0;
      ghost var peer0 := peer;
      while SomePending(keys, pending)
        invariant ok && Valid() && old(trace) <= trace && peer == peer0 && closed == old(closed)
        invariant Patient(channels0, pending0, feed0, deadline, used, peer0, channels, pending, feed)
        invariant AllStillPending(keys, pending0, peer0, feed0, used)
        decreases |feed|
      {
        ok := AwaitOnce(keys, deadline, channels0, pending0, feed0, used);
        if !ok {
          return;
        }
        used := used + 1;
      }
      WaitSucceeds(pending0, peer0, feed0, deadline, keys, used);
    }

    /** The waiting loop of `read_exact`: turn after turn, for as long as bytes are missing and there is time. */
    method AwaitBytes(channel: nat, size: nat, deadline: int) returns (r: Outcome<()>, ghost used: nat)
      requires Valid() && channel < CHANNELS
      modifies this`pending, this`trace, this`channels, this`peer, this`closed, this`feed, this`clock
      ensures Valid() && BuffersGrow(old(channels), channels) && old(trace) <= trace && |feed| <= |old(feed)|
      ensures size <= |old(channels)[channel].buffer| ==> r.Done? && used == 0
      ensures ReadEnds(old(pending), old(channels), old(peer), old(feed), deadline, channel, size, used, r)
      ensures !r.Failed? ==>
                && peer == old(peer) && closed == old(closed) && Waited(old(channels), old(feed), used, peer, channels, feed)
                && pending == PendingUpTo(old(pending), peer, old(feed), used)
      ensures r.Done? ==> if used == 0 then clock == old(clock) else clock < deadline
    {
      used := 0;
      while |channels[channel].buffer| < size
        invariant Valid() && old(trace) <= trace && peer == old(peer) && closed == old(closed)
        invariant Patient(old(channels), old(pending), old(feed), deadline, used, old(peer), channels, pending, feed)
        invariant AllShort(old(channels), old(peer), old(feed), channel, size, used)
        invariant if used == 0 then clock == old(clock) else clock < deadline && |old(channels)[channel].buffer| < size
        decreases |feed|
      {
        if Late(deadline) {
          return TimedOut, used;
        }
        ghost var heard, waiting := channels, pending;
        var ok := TakeTurn();
        if !ok {
          return Failed, used;
        }
        MorePatient(old(channels), old(pending), old(feed), deadline, used, old(peer), heard, waiting);
        ShortOnceMore(old(channels), old(peer), old(feed), channel, size, used);
        used := used + 1;
      }
      return Done(()), used;
    }

    /**
     Every chunk is sent once, numbered onwards from the channel's last. Then turns are taken
     for as long as a key of the write is pending. The write returns if and only if the peer
     acknowledges every key in turns that come before the deadline and do not fail; it fails
     because time is up or the next turn fails.
     */
    method Write(channel: int, payload: bytes, timeout: int)
      returns (r: Outcome<()>, ghost sent: map<Key, Entry>, ghost keys: seq<Key>, ghost used: nat)
      requires Valid()
      modifies this`outgoing, this`pending, this`trace, this`channels, this`peer, this`closed, this`feed, this`clock
      ensures Valid() && r != TimedOut && BuffersGrow(old(channels), channels) && old(trace) <= trace
      ensures !(old(Open()) && 0 <= channel < CHANNELS) ==>
                r == Failed && trace == old(trace) && pending == old(pending) && outgoing == old(outgoing)
      ensures old(Open()) && 0 <= channel < CHANNELS ==>
                var first, n := old(outgoing)[channel], ChunkCount(payload);
                && outgoing == old(outgoing)[channel := Wrap(first + n)]
                && old(trace) + DataPackets(channel, first, payload, n, old(peer).value) <= trace
                && sent == SentPending(old(pending), channel, first, payload, old(clock), n)
                && keys == KeysFrom(channel, first, n)
      ensures old(Open()) && 0 <= channel < CHANNELS ==>
                WaitIsExact(sent, old(peer), old(feed), old(clock) + timeout, keys, used, r.Done?)
      ensures r.Done? ==>
                && Open() && peer == old(peer) && Waited(old(channels), old(feed), used, peer, channels, feed)
                && pending == PendingUpTo(sent, peer, old(feed), used)
    {
      if !Open() || !(0 <= channel < CHANNELS) {
        return Failed, pending, [], 0;
      }
      var chunkKeys := SendChunks(channel, payload, peer.value);
      sent, keys := pending, chunkKeys;
      var ok;
      ok, used := AwaitAcknowledged(chunkKeys, clock + timeout, channels, pending, feed);
      return if ok then Done(()) else Failed, sent, keys, used;
    }

    /**
     A normal return hands over exactly `size` bytes; any other outcome hands over none. It
     times out because time is up, and fails because the next turn does.
     */
    method ReadExact(channel: int, size: int, timeout: int) returns (r: Outcome<bytes>, ghost used: nat)
      requires Valid()
      modifies this`pending, this`trace, this`channels, this`peer, this`closed, this`feed, this`clock, this`taken
      ensures Valid() && old(trace) <= trace && |feed| <= |old(feed)|
      ensures !(old(Open()) && 0 <= channel < CHANNELS && 0 <= size <= 8388608) ==> r == Failed
      ensures old(Open()) && 0 <= channel < CHANNELS && 0 <= size <= 8388608 ==>
                ReadEnds(old(pending), old(channels), old(peer), old(feed), old(clock) + timeout, channel, size, used, Without(r))
      ensures old(Open()) && 0 <= channel < CHANNELS && 0 <= size <= 8388608 && size <= |old(channels)[channel].buffer| ==>
                r.Done? && used == 0
      ensures !r.Failed? ==>
                && Open() && peer == old(peer) && used <= |old(feed)| && feed == old(feed)[used..]
                && pending == PendingUpTo(old(pending), peer, old(feed), used)
                && var heard := HeardUpTo(old(channels), peer, old(feed), used);
                if r == TimedOut then channels == heard
                else
                  && size <= |heard[channel].buffer| && r.value == heard[channel].buffer[..size]
                  && channels == heard[channel := heard[channel].(buffer := heard[channel].buffer[size..])]
                  && taken == old(taken)[channel := old(taken)[channel] + r.value]
      ensures !r.Done? ==> taken == old(taken)
      ensures r.Done? ==> if used == 0 then clock == old(clock) else clock < old(clock) + timeout
      ensures forall c | 0 <= c < CHANNELS :: old(Arrived(c)) <= Arrived(c)
    {
      used := 0;
      if !Open() || !(0 <= channel < CHANNELS) || size < 0 || size > MAX_FRAME_BYTES {
        return Failed, used;
      }
      var waited;
      waited, used := AwaitBytes(channel, size, clock + timeout);
      if !waited.Done? {
        return if waited.Failed? then Failed else TimedOut, used;
      }
      var result := TakeBytes(channel, size);
      return Done(result), used;
    }

    /** The next bytes of a channel go to its reader. */
    method TakeBytes(channel: nat, size: nat) returns (result: bytes)
      requires Valid() && channel < CHANNELS && size <= |channels[channel].buffer|
      modifies this`channels, this`taken
      ensures Valid() && result == old(channels)[channel].buffer[..size]
      ensures channels == old(channels)[channel := old(channels)[channel].(buffer := old(channels)[channel].buffer[size..])]
      ensures taken == old(taken)[channel := old(taken)[channel] + result]
      ensures forall c | 0 <= c < CHANNELS :: Arrived(c) == old(Arrived(c))
    {
      var buffer := channels[channel].buffer;
      channels := channels[channel := channels[channel].(buffer := buffer[size..])];
      taken := taken[channel := taken[channel] + buffer[..size]];
      assert buffer == buffer[..size] + buffer[size..];
      return buffer[..size];
    }
  }
}
