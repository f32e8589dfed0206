/**
 The two ends of a channel as two sessions: their methods carry out the steps of `Link`, so
 what is proved of its runs holds of them. What the sender puts on the wire, first or again,
 is a frame of the link, and what the receiver answers acknowledges exactly that frame.
 */
module Endpoints {
  import opened Octets
  import opened Channel
  import opened Packets
  import opened Environment
  import opened Retransmission
  import opened Turns
  import opened Session
  import L = Link
  import W = WholeWrite

  type Link = L.Link

  /** The packet is that of a frame of the link with this number. */
  ghost predicate IsFrameOf(l: Link, c: nat, s: nat, packet: bytes)
    requires c < CHANNELS
  {
    exists k: nat :: k < |l.frames| && s == Wrap(k) && |l.frames[k]| <= CHUNK_BYTES && packet == DataPacket(c, Wrap(k), l.frames[k])
  }

  /** What the sender holds pending on the channel are frames of the link. */
  ghost predicate Genuine(pending: map<Key, Entry>, l: Link, c: nat)
    requires c < CHANNELS
  {
    forall s: nat | (c, s) in pending :: IsFrameOf(l, c, s, pending[(c, s)].packet)
  }

  ghost predicate SamePending(pending: map<Key, Entry>, c: nat, numbers: set<nat>) {
    forall s: nat :: (c, s) in pending <==> s in numbers
  }

  ghost predicate SenderLinked(a: CS2Session, c: nat, l: Link)
    reads a
  {
    && a.Valid() && c < CHANNELS
    && a.outgoing[c] == Wrap(|l.frames|)
    && SamePending(a.pending, c, l.pending)
    && Genuine(a.pending, l, c)
  }

  ghost predicate ReceiverLinked(b: CS2Session, c: nat, l: Link)
    reads b
  {
    b.Valid() && c < CHANNELS && b.channels[c] == l.receiver && b.taken[c] == l.taken
  }

  /** `write` sends a chunk: the link's next frame. */
  method Send(a: CS2Session, c: nat, chunk: bytes, to: Address, ghost l: Link)
    requires SenderLinked(a, c, l) && |chunk| <= CHUNK_BYTES
    modifies a`outgoing, a`trace, a`pending
    ensures SenderLinked(a, c, L.Step(l, L.Send(chunk)))
    ensures Wrap(|l.frames|) < MODULUS && a.trace == old(a.trace) + [Out(DataPacket(c, Wrap(|l.frames|), chunk), to)]
  {
    NextNumber(|l.frames|, 0);
    var key := a.SendChunk(c, chunk, to, |l.frames|, 0);
  }

  /** A pass over the pending map keeps its keys and packets. */
  lemma PassKeepsLinked(pending: map<Key, Entry>, after: map<Key, Entry>, now: int, c: nat, l: Link)
    requires c < CHANNELS && PassOutcome(pending, now, after, None)
    requires SamePending(pending, c, l.pending) && Genuine(pending, l, c)
    ensures SamePending(after, c, l.pending) && Genuine(after, l, c)
  {
    forall s: nat | (c, s) in after
      ensures IsFrameOf(l, c, s, after[(c, s)].packet)
    {
      assert after[(c, s)].packet == pending[(c, s)].packet;
    }
  }

  /** Everything a pass sends again on the channel is a frame of the link, under its number. */
  ghost predicate ResendsFrames(resent: seq<Traffic>, order: seq<Key>, c: nat, l: Link)
    requires c < CHANNELS
  {
    |order| == |resent|
    && forall i | 0 <= i < |order| && order[i].0 == c :: resent[i].Out? && IsFrameOf(l, c, order[i].1, resent[i].packet)
  }

  /** A turn of the sender that brings no acknowledgement on the channel only sends frames again. */
  method SenderTurn(a: CS2Session, now: int, received: Option<(bytes, Address)>, c: nat, ghost l: Link)
    returns (ok: bool, ghost order: seq<Key>, ghost resent: seq<Traffic>)
    requires SenderLinked(a, c, l) && (received.Some? ==> |received.value.0| >= 4)
    requires forall s: nat :: (c, s) !in AckedBy(a.peer, received)
    modifies a`pending, a`trace, a`channels, a`peer, a`closed
    ensures old(a.trace) + resent <= a.trace
    ensures ok ==> SenderLinked(a, c, l) && ResendsFrames(resent, order, c, l)
  {
    ghost var exhausted, mid, closes;
    exhausted, order, resent, mid, closes, ok := a.Pump(now, received);
    if ok {
      if old(a.peer).Some? {
        PassKeepsLinked(old(a.pending), mid, now, c, l);
      } else {
        order := [];
      }
    }
  }

  /** A turn that leaves the channel alone: no packet, or none of the peer's data for it. */
  predicate Bystander(c: nat, peer: Option<Address>, received: Option<(bytes, Address)>) {
    || received.None? || !FromPeer(peer, received.value.1) || Kind(received.value.0) != DATA
    || ParseData(received.value.0).None? || ParseData(received.value.0).value.channel != c
  }

  method ReceiverTurn(b: CS2Session, now: int, received: Option<(bytes, Address)>, c: nat, ghost l: Link) returns (ok: bool)
    requires ReceiverLinked(b, c, l) && Bystander(c, b.peer, received) && (received.Some? ==> |received.value.0| >= 4)
    modifies b`pending, b`trace, b`channels, b`peer, b`closed
    ensures ReceiverLinked(b, c, l)
  {
    ghost var exhausted, order, resent, mid, closes;
    exhausted, order, resent, mid, closes, ok := b.Pump(now, received);
  }

  /** The acknowledgement the receiver sends for frame `k`. */
  function AckOf(l: Link, c: nat, k: nat): bytes
    requires c < CHANNELS && k < |l.frames| && |l.frames[k]| <= CHUNK_BYTES && Wrap(k) < MODULUS
  {
    var d := DataPacket(c, Wrap(k), l.frames[k]);
    AckPacket(d[5], d[6], d[7])
  }

  /** Frame `k` arrives: the link's delivery, answered with its acknowledgement. */
  method Deliver(b: CS2Session, now: int, c: nat, k: nat, packet: bytes, from: Address, ghost l: Link)
    returns (ok: bool, ghost exhausted: Option<Key>)
    requires ReceiverLinked(b, c, l) && FromPeer(b.peer, from)
    requires L.Timely(l, L.Deliver(k)) && |l.frames[k]| <= CHUNK_BYTES && Wrap(k) < MODULUS
    requires packet == DataPacket(c, Wrap(k), l.frames[k])
    modifies b`pending, b`trace, b`channels, b`peer, b`closed
    ensures exhausted.None? ==>
              && ok && ReceiverLinked(b, c, L.Step(l, L.Deliver(k)))
              && b.trace != [] && b.trace[|b.trace| - 1] == Out(AckOf(l, c, k), old(b.peer).value)
    ensures exhausted.Some? ==> !ok && ReceiverLinked(b, c, l)
  {
    ghost var order, resent, mid, closes;
    exhausted, order, resent, mid, closes, ok := b.Pump(now, Some((packet, from)));
  }

  /** The acknowledgement of frame `k` arrives: the link's acknowledgement. */
  method Acknowledge(a: CS2Session, now: int, c: nat, k: nat, packet: bytes, from: Address, ghost l: Link)
    returns (ok: bool, ghost exhausted: Option<Key>)
    requires SenderLinked(a, c, l) && FromPeer(a.peer, from)
    requires L.Timely(l, L.Acknowledge(k)) && k < |l.frames| && |l.frames[k]| <= CHUNK_BYTES && Wrap(k) < MODULUS
    requires packet == AckOf(l, c, k)
    modifies a`pending, a`trace, a`channels, a`peer, a`closed
    ensures exhausted.None? ==> ok && SenderLinked(a, c, L.Step(l, L.Acknowledge(k)))
    ensures exhausted.Some? ==> !ok
  {
    AckRoundTrip(c, Wrap(k), l.frames[k]);
    assert packet[..2] == ACK;
    ghost var order, resent, mid, closes;
    exhausted, order, resent, mid, closes, ok := a.Pump(now, Some((packet, from)));
    if exhausted.None? {
      PassKeepsLinked(old(a.pending), mid, now, c, l);
    }
  }

  // ---------------------------------------------------------------------------------
  // A read, with the turns it waits for

  /** The turn brings frame `k`, at a harmless offset, or leaves the channel alone. */
  predicate Brings(l: Link, c: nat, peer: Option<Address>, received: Option<(bytes, Address)>, k: Option<nat>)
    requires c < CHANNELS
  {
    match k
    case None => Bystander(c, peer, received)
    case Some(k) =>
      && received.Some? && FromPeer(peer, received.value.1)
      && L.Timely(l, L.Deliver(k)) && |l.frames[k]| <= CHUNK_BYTES && Wrap(k) < MODULUS
      && received.value.0 == DataPacket(c, Wrap(k), l.frames[k])
  }

  function After(l: Link, k: Option<nat>): Link {
    if k.Some? && L.Timely(l, L.Deliver(k.value)) then L.Step(l, L.Deliver(k.value)) else l
  }

  /** The link after the deliveries of the first `n` turns. */
  function AfterTurns(l: Link, ks: seq<Option<nat>>, n: nat): Link
    requires n <= |ks|
  {
    if n == 0 then l else After(AfterTurns(l, ks, n - 1), ks[n - 1])
  }

  /** Each turn to come brings the frame `ks` says. */
  ghost predicate FeedBrings(l: Link, c: nat, peer: Option<Address>, ticks: seq<Tick>, ks: seq<Option<nat>>)
    requires c < CHANNELS
  {
    && |ks| == |ticks|
    && forall n | 0 <= n < |ticks| :: Brings(AfterTurns(l, ks, n), c, peer, ticks[n].received, ks[n])
  }

  lemma {:induction false} TurnsAreDeliveries(
    channels: seq<Receiver>, l: Link, c: nat, peer: Option<Address>, ticks: seq<Tick>, ks: seq<Option<nat>>, n: nat)
    requires |channels| == CHANNELS && c < CHANNELS && channels[c] == l.receiver
    requires FeedBrings(l, c, peer, ticks, ks) && n <= |ticks|
    ensures HeardUpTo(channels, peer, ticks, n)[c] == AfterTurns(l, ks, n).receiver
    ensures AfterTurns(l, ks, n).taken == l.taken && AfterTurns(l, ks, n).written == l.written
  {
    if n > 0 {
      TurnsAreDeliveries(channels, l, c, peer, ticks, ks, n - 1);
    }
  }

  /** The turns are a run of the link. */
  lemma {:induction false} TurnsAreRun(l: Link, ks: seq<Option<nat>>, n: nat) returns (es: seq<L.Event>)
    requires n <= |ks|
    ensures L.TimelyRun(l, es) && L.Run(l, es) == AfterTurns(l, ks, n)
  {
    if n == 0 {
      es := [];
    } else {
      es := TurnsAreRun(l, ks, n - 1);
      var k, m := ks[n - 1], AfterTurns(l, ks, n - 1);
      if k.Some? && L.Timely(m, L.Deliver(k.value)) {
        L.RunSnoc(l, es, L.Deliver(k.value));
        es := es + [L.Deliver(k.value)];
      }
    }
  }

  lemma TakenIsPrefix(l: Link)
    requires L.Sound(l)
    ensures l.taken <= l.written
  {
    ConcatPrefix(l.frames, l.next);
    assert l.taken <= l.taken + l.receiver.buffer;
  }

  lemma TurnsKeepSound(l: Link, ks: seq<Option<nat>>, used: nat)
    requires L.Sound(l) && used <= |ks|
    ensures L.Sound(AfterTurns(l, ks, used))
  {
    var es := TurnsAreRun(l, ks, used);
    L.RunKeepsSound(l, es);
  }

  lemma TakingKeepsPrefix(l: Link, n: nat)
    requires L.Sound(l) && L.Timely(l, L.Take(n))
    ensures L.Step(l, L.Take(n)).taken <= l.written
  {
    L.TakeKeepsSound(l, n);
    TakenIsPrefix(L.Step(l, L.Take(n)));
  }

  /**
   A read waits for turns that bring frames of the link, and then takes: the link's
   deliveries and its taking. What it has returned is a prefix of what was written.
   */
  method Take(b: CS2Session, c: nat, n: nat, timeout: int, ghost l: Link, ghost ks: seq<Option<nat>>)
    returns (r: Outcome<bytes>, ghost used: nat)
    requires ReceiverLinked(b, c, l) && b.Open() && n <= MAX_FRAME_BYTES && FeedBrings(l, c, b.peer, b.feed, ks)
    modifies b`pending, b`trace, b`channels, b`peer, b`closed, b`feed, b`clock, b`taken
    ensures used <= |ks|
    ensures n <= |l.receiver.buffer| ==> r.Done? && used == 0
    ensures r.Done? ==>
              var m := AfterTurns(l, ks, used);
              && L.Timely(m, L.Take(n)) && r.value == m.receiver.buffer[..n]
              && ReceiverLinked(b, c, L.Step(m, L.Take(n)))
              && (L.Sound(l) ==> b.taken[c] <= l.written)
    ensures r == TimedOut ==>
              |AfterTurns(l, ks, used).receiver.buffer| < n && ReceiverLinked(b, c, AfterTurns(l, ks, used))
  {
    ghost var before, feed, peer := b.channels, b.feed, b.peer;
    r, used := b.ReadExact(c, n, timeout);
    if !r.Failed? {
      TurnsAreDeliveries(before, l, c, peer, feed, ks, used);
    }
    if r.Done? && L.Sound(l) {
      TurnsKeepSound(l, ks, used);
      TakingKeepsPrefix(AfterTurns(l, ks, used), n);
    }
  }

  lemma {:induction false} KeyAmong(c: nat, first: nat, n: nat, i: nat)
    requires i < n
    ensures (c, Wrap(first + i)) in KeysFrom(c, first, n)
  {
    if i < n - 1 {
      KeyAmong(c, first, n - 1, i);
    }
  }

  lemma WrapOfWrap(base: nat, i: nat)
    ensures Wrap(Wrap(base) + i) == Wrap(base + i)
  {
  }

  /** What a normal return of `write` says of its keys is what the link's theorem asks for. */
  lemma WriteReturned(pending: map<Key, Entry>, l: Link, c: nat, base: nat, n: nat)
    requires SamePending(pending, c, l.pending) && |l.frames| == base + n
    requires forall k | k in KeysFrom(c, Wrap(base), n) :: k !in pending
    ensures L.Returned(l, base)
  {
    forall k: nat | base <= k < |l.frames|
      ensures Wrap(k) !in l.pending
    {
      WrapOfWrap(base, k - base);
      KeyAmong(c, Wrap(base), n, k - base);
    }
  }

  // ---------------------------------------------------------------------------------
  // A whole write, with the turns it waits for

  /** The numbers of the channel among the keys. */
  function NumbersOf(c: nat, keys: set<Key>): set<nat> {
    set k | k in keys && k.0 == c :: k.1
  }

  /** The numbers of the channel that each turn acknowledges. */
  function AckedNumbers(c: nat, peer: Option<Address>, ticks: seq<Tick>): (acked: seq<set<nat>>)
    ensures |acked| == |ticks|
  {
    seq(|ticks|, i requires 0 <= i < |ticks| => NumbersOf(c, AckedBy(peer, ticks[i].received)))
  }

  /** The acknowledgement of frame `k`, as the receiver sends it, acknowledges just that frame's number. */
  lemma AckBrings(l: Link, c: nat, k: nat, peer: Option<Address>, from: Address)
    requires c < CHANNELS && k < |l.frames| && |l.frames[k]| <= CHUNK_BYTES && Wrap(k) < MODULUS && FromPeer(peer, from)
    ensures NumbersOf(c, AckedBy(peer, Some((AckOf(l, c, k), from)))) == {Wrap(k)}
  {
    AckRoundTrip(c, Wrap(k), l.frames[k]);
    assert Kind(AckOf(l, c, k)) == ACK;
    assert (c, Wrap(k)) in AckedBy(peer, Some((AckOf(l, c, k), from)));
  }

  lemma KeyIsWithin(c: nat, peer: Option<Address>, ticks: seq<Tick>, used: nat, s: nat)
    requires AckedWithin(peer, ticks, used, (c, s))
    ensures W.Within(AckedNumbers(c, peer, ticks), used, s)
  {
    var i :| 0 <= i < used && i < |ticks| && (c, s) in AckedBy(peer, ticks[i].received);
    assert s in AckedNumbers(c, peer, ticks)[i];
  }

  lemma KeysAreAcked(c: nat, peer: Option<Address>, ticks: seq<Tick>, used: nat, base: nat, n: nat)
    requires forall k | k in KeysFrom(c, Wrap(base), n) :: AckedWithin(peer, ticks, used, k)
    ensures W.AllAcked(AckedNumbers(c, peer, ticks), used, base, n)
  {
    forall j: nat | base <= j < base + n
      ensures W.Within(AckedNumbers(c, peer, ticks), used, Wrap(j))
    {
      WrapOfWrap(base, j - base);
      KeyAmong(c, Wrap(base), n, j - base);
      KeyIsWithin(c, peer, ticks, used, Wrap(j));
    }
  }

  /**
   A whole `write`: a run of the link, whatever happens at the receiver meanwhile. If it has at
   most 65 chunks, is promptly acknowledged, and returns, everything was delivered.
   */
  method WriteAll(a: CS2Session, c: nat, payload: bytes, timeout: int, ghost l: Link, ghost turns: seq<W.Turn>)
    returns (r: Outcome<()>, ghost es: seq<L.Event>)
    requires SenderLinked(a, c, l) && a.Open()
    requires W.TurnsFit(W.AfterSends(l, Chunks(payload)), AckedNumbers(c, a.peer, a.feed), turns)
    modifies a`outgoing, a`pending, a`trace, a`channels, a`peer, a`closed, a`feed, a`clock
    ensures r.Done? ==>
              && L.TimelyRun(l, es) && L.Sends(es) == ChunkCount(payload)
              && L.Returned(L.Run(l, es), |l.frames|) && L.Run(l, es).written == l.written + payload
    ensures r.Done? && L.Sound(l) && L.Settled(l) && ChunkCount(payload) <= 65
            && W.PromptTurns(|l.frames|, |l.frames| + ChunkCount(payload), turns) ==>
              var l' := L.Run(l, es);
              L.Settled(l') && l'.taken + l'.receiver.buffer == l.written + payload
  {
    ghost var peer, feed := a.peer, a.feed;
    ghost var sent, keys, used;
    r, sent, keys, used := a.Write(c, payload, timeout);
    es := [];
    if r.Done? {
      ChunksCover(payload);
      KeysAreAcked(c, peer, feed, used, |l.frames|, ChunkCount(payload));
      es := W.WriteIsRun(l, AckedNumbers(c, peer, feed), turns, used, Chunks(payload));
      if L.Sound(l) && L.Settled(l) && ChunkCount(payload) <= 65
         && W.PromptTurns(|l.frames|, |l.frames| + ChunkCount(payload), turns) {
        L.ReturnedIsDelivered(l, es);
      }
    }
  }
}
