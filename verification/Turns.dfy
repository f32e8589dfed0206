/**
 A turn of a waiting loop, as functions on values: what it leaves on the channels and of the
 pending map, what a packet is answered with, and when it fails. And the outcome of waiting:
 which turns are taken, and why no more are.
 */
module Turns {
  import opened Octets
  import opened Channel
  import opened Packets
  import opened Environment
  import opened Retransmission

  /** How waiting, or what was waited for, ends. */
  datatype Outcome<+T> = Done(value: T) | TimedOut | Failed

  function Without<T>(r: Outcome<T>): Outcome<()> {
    match r
    case Done(_) => Done(())
    case TimedOut => TimedOut
    case Failed => Failed
  }

  /** What a packet from the peer is answered with. */
  function Reply(uid: bytes, peer: Address, packet: bytes, from: Address): seq<Traffic>
    requires |packet| >= 4
  {
    var kind := packet[..2];
    if kind == ALIVE then [Out(Bare(ALIVE_ACK), from)]
    else if kind == PUNCH then [Out(READY + [0x00, 0x14] + uid, from)]
    else if kind == READY then [Out(Bare(READY_ACK), from)]
    else if kind == DATA && ParseData(packet).Some? then [Out(AckPacket(packet[5], packet[6], packet[7]), peer)]
    else []
  }

  /** Packets are taken from the peer's host only, whatever the port. */
  predicate FromPeer(peer: Option<Address>, from: Address) {
    peer.Some? && from.host == peer.value.host
  }

  lemma {:induction false} DrainExtends(r: Receiver)
    ensures r.buffer <= Drain(r).buffer
    decreases |r.held|
  {
    if r.expected in r.held {
      DrainExtends(ReleaseExpected(r));
    }
  }

  /** Accepting a frame only ever adds bytes behind those already waiting. */
  lemma AcceptExtends(r: Receiver, sequence: nat, body: bytes)
    ensures r.buffer <= Accept(r, sequence, body).buffer
  {
    DrainExtends(AppendExpected(r, body));
  }

  /** What one turn of a waiting loop leaves on the channels, if it does not fail. */
  function Heard(channels: seq<Receiver>, peer: Option<Address>, received: Option<(bytes, Address)>): (after: seq<Receiver>)
    requires |channels| == CHANNELS
    ensures |after| == CHANNELS
  {
    if received.None? || !FromPeer(peer, received.value.1) || Kind(received.value.0) != DATA
       || ParseData(received.value.0).None?
    then channels
    else
      var Frame(c, sequence, body) := ParseData(received.value.0).value;
      channels[c := Accept(channels[c], sequence, body)]
  }

  /** Hearing only ever adds bytes behind those already waiting. */
  lemma HeardExtends(channels: seq<Receiver>, peer: Option<Address>, received: Option<(bytes, Address)>)
    requires |channels| == CHANNELS
    ensures BuffersGrow(channels, Heard(channels, peer, received))
  {
    if received.Some? && ParseData(received.value.0).Some? {
      var Frame(c, sequence, body) := ParseData(received.value.0).value;
      AcceptExtends(channels[c], sequence, body);
    }
  }

  lemma MinusNothing(m: map<Key, Entry>)
    ensures m - {} == m
  {
  }

  /** What the first `n` turns leave on the channels. */
  function HeardUpTo(channels: seq<Receiver>, peer: Option<Address>, ticks: seq<Tick>, n: nat): (after: seq<Receiver>)
    requires |channels| == CHANNELS && n <= |ticks|
    ensures |after| == CHANNELS
  {
    if n == 0 then channels else Heard(HeardUpTo(channels, peer, ticks, n - 1), peer, ticks[n - 1].received)
  }

  /** The keys one turn's packet acknowledges. */
  function AckedBy(peer: Option<Address>, received: Option<(bytes, Address)>): set<Key> {
    if received.Some? && FromPeer(peer, received.value.1) && Kind(received.value.0) == ACK
    then AckedKeys(received.value.0) else {}
  }

  /** One of the first `n` turns brought the peer's acknowledgement of the key. */
  predicate AckedWithin(peer: Option<Address>, ticks: seq<Tick>, n: nat, key: Key) {
    exists i | 0 <= i < n && i < |ticks| :: key in AckedBy(peer, ticks[i].received)
  }

  predicate BuffersGrow(before: seq<Receiver>, after: seq<Receiver>) {
    |before| == |after| && forall c | 0 <= c < |before| :: before[c].buffer <= after[c].buffer
  }

  /** After `used` turns of a waiting loop that began with `channels0` and `feed0`. */
  ghost predicate Waited(
    channels0: seq<Receiver>, feed0: seq<Tick>, used: nat, peer: Option<Address>, channels: seq<Receiver>, feed: seq<Tick>)
    requires |channels0| == CHANNELS
  {
    && used <= |feed0| && feed == feed0[used..]
    && channels == HeardUpTo(channels0, peer, feed0, used)
    && BuffersGrow(channels0, channels)
  }

  lemma WaitedMore(channels0: seq<Receiver>, feed0: seq<Tick>, used: nat, peer: Option<Address>, channels: seq<Receiver>)
    requires |channels0| == CHANNELS && used < |feed0|
    requires Waited(channels0, feed0, used, peer, channels, feed0[used..])
    ensures Waited(channels0, feed0, used + 1, peer, Heard(channels, peer, feed0[used].received), feed0[used..][1..])
  {
    HeardExtends(channels, peer, feed0[used].received);
  }

  // ---------------------------------------------------------------------------------
  // When a turn fails

  /** An entry is due and has been sent twenty times. */
  predicate Exhausts(pending: map<Key, Entry>, now: int) {
    exists k | k in pending :: now - pending[k].sentAt >= 500 && pending[k].attempts >= 20
  }

  /** The peer's host says that the session is over. */
  predicate Closes(peer: Option<Address>, received: Option<(bytes, Address)>) {
    && peer.Some? && received.Some? && received.value.1.host == peer.value.host
    && |received.value.0| >= 2 && received.value.0[..2] == [0xF1, 0xF0]
  }

  predicate Fails(pending: map<Key, Entry>, peer: Option<Address>, tick: Tick) {
    (peer.Some? && Exhausts(pending, tick.now)) || Closes(peer, tick.received)
  }

  /** Every entry that is due has been sent once more. */
  function Resend(pending: map<Key, Entry>, now: int): map<Key, Entry> {
    map k | k in pending ::
      if now - pending[k].sentAt >= 500
      then Entry(pending[k].packet, now, pending[k].attempts + 1) else pending[k]
  }

  /** A pass fails exactly if an entry is exhausted, and otherwise sends the due ones once more. */
  lemma PassIsResend(pending: map<Key, Entry>, now: int, after: map<Key, Entry>, exhausted: Option<Key>)
    requires PassOutcome(pending, now, after, exhausted)
    ensures exhausted.Some? <==> Exhausts(pending, now)
    ensures exhausted.None? ==> after == Resend(pending, now)
  {
  }

  function PendingAfter(pending: map<Key, Entry>, peer: Option<Address>, tick: Tick): map<Key, Entry> {
    (if peer.Some? then Resend(pending, tick.now) else pending) - AckedBy(peer, tick.received)
  }

  /** The pending map after the first `n` turns, if none of them fails. */
  function PendingUpTo(pending: map<Key, Entry>, peer: Option<Address>, ticks: seq<Tick>, n: nat): map<Key, Entry>
    requires n <= |ticks|
  {
    if n == 0 then pending else PendingAfter(PendingUpTo(pending, peer, ticks, n - 1), peer, ticks[n - 1])
  }

  // ---------------------------------------------------------------------------------
  // The outcome of waiting

  /** Turn `i` comes in time and does not fail. */
  predicate TurnIsGood(pending: map<Key, Entry>, peer: Option<Address>, ticks: seq<Tick>, deadline: int, i: nat) {
    i < |ticks| && ticks[i].now < deadline && !Fails(PendingUpTo(pending, peer, ticks, i), peer, ticks[i])
  }

  /** After `i` turns some of the keys are pending. */
  predicate StillPending(keys: seq<Key>, pending: map<Key, Entry>, peer: Option<Address>, ticks: seq<Tick>, i: nat) {
    i <= |ticks| && SomePending(keys, PendingUpTo(pending, peer, ticks, i))
  }

  /** Before each of the first `n` turns some of the keys are pending. */
  predicate AllStillPending(keys: seq<Key>, pending: map<Key, Entry>, peer: Option<Address>, ticks: seq<Tick>, n: nat) {
    forall i | 0 <= i < n :: StillPending(keys, pending, peer, ticks, i)
  }

  lemma PendingOnceMore(keys: seq<Key>, pending: map<Key, Entry>, peer: Option<Address>, ticks: seq<Tick>, n: nat)
    requires AllStillPending(keys, pending, peer, ticks, n) && n <= |ticks|
    requires SomePending(keys, PendingUpTo(pending, peer, ticks, n))
    ensures AllStillPending(keys, pending, peer, ticks, n + 1)
  {
  }

  /** The first `n` turns come in time and none of them fails. */
  predicate InTime(pending: map<Key, Entry>, peer: Option<Address>, ticks: seq<Tick>, deadline: int, n: nat) {
    && n <= |ticks|
    && forall i | 0 <= i < n :: TurnIsGood(pending, peer, ticks, deadline, i)
  }

  /** No further turn comes in time. */
  predicate OutOfTime(ticks: seq<Tick>, deadline: int, n: nat) {
    n >= |ticks| || ticks[n].now >= deadline
  }

  /** The next turn comes in time and fails. */
  predicate Breaks(pending: map<Key, Entry>, peer: Option<Address>, ticks: seq<Tick>, deadline: int, n: nat) {
    n < |ticks| && ticks[n].now < deadline && Fails(PendingUpTo(pending, peer, ticks, n), peer, ticks[n])
  }

  /** After `used` good turns of a waiting loop: the feed, the channels and the pending map. */
  ghost predicate Patient(
    channels0: seq<Receiver>, pending0: map<Key, Entry>, feed0: seq<Tick>, deadline: int, used: nat, peer: Option<Address>,
    channels: seq<Receiver>, pending: map<Key, Entry>, feed: seq<Tick>)
    requires |channels0| == CHANNELS
  {
    && Waited(channels0, feed0, used, peer, channels, feed)
    && InTime(pending0, peer, feed0, deadline, used)
    && pending == PendingUpTo(pending0, peer, feed0, used)
  }

  lemma MorePatient(
    channels0: seq<Receiver>, pending0: map<Key, Entry>, feed0: seq<Tick>, deadline: int, used: nat, peer: Option<Address>,
    channels: seq<Receiver>, pending: map<Key, Entry>)
    requires |channels0| == CHANNELS && used < |feed0|
    requires Patient(channels0, pending0, feed0, deadline, used, peer, channels, pending, feed0[used..])
    requires feed0[used].now < deadline && !Fails(pending, peer, feed0[used])
    ensures |channels| == CHANNELS
    ensures Patient(channels0, pending0, feed0, deadline, used + 1, peer, Heard(channels, peer, feed0[used].received),
                    PendingAfter(pending, peer, feed0[used]), feed0[used..][1..])
  {
    WaitedMore(channels0, feed0, used, peer, channels);
    InTimeMore(pending0, peer, feed0, deadline, used);
  }

  predicate AllPending(keys: seq<Key>, pending: map<Key, Entry>) {
    forall k | k in keys :: k in pending
  }

  predicate SomePending(keys: seq<Key>, pending: map<Key, Entry>) {
    exists k | k in keys :: k in pending
  }

  /** All keys are acknowledged in turns that come in time and do not fail. */
  predicate AckedInTime(pending: map<Key, Entry>, peer: Option<Address>, ticks: seq<Tick>, deadline: int, keys: seq<Key>, n: nat) {
    InTime(pending, peer, ticks, deadline, n) && forall k | k in keys :: AckedWithin(peer, ticks, n, k)
  }

  ghost predicate SomedayAcked(pending: map<Key, Entry>, peer: Option<Address>, ticks: seq<Tick>, deadline: int, keys: seq<Key>) {
    exists n: nat :: AckedInTime(pending, peer, ticks, deadline, keys, n)
  }

  lemma {:induction false} AckedIsGone(pending: map<Key, Entry>, peer: Option<Address>, ticks: seq<Tick>, n: nat, m: nat, k: Key)
    requires n <= m <= |ticks| && AckedWithin(peer, ticks, n, k)
    ensures k !in PendingUpTo(pending, peer, ticks, m)
    decreases m
  {
    if m > 0 && (n < m || k !in AckedBy(peer, ticks[m - 1].received)) {
      AckedIsGone(pending, peer, ticks, if n < m then n else m - 1, m - 1, k);
    }
  }

  /** Waiting cannot end badly once everything was acknowledged in time. */
  lemma AckedEndsWell(
    pending: map<Key, Entry>, peer: Option<Address>, ticks: seq<Tick>, deadline: int, keys: seq<Key>, m: nat, used: nat)
    requires AckedInTime(pending, peer, ticks, deadline, keys, m) && used <= |ticks|
    requires OutOfTime(ticks, deadline, used) || Breaks(pending, peer, ticks, deadline, used)
    ensures !SomePending(keys, PendingUpTo(pending, peer, ticks, used))
  {
    forall k | k in keys
      ensures k !in PendingUpTo(pending, peer, ticks, used)
    {
      assert used < m ==> TurnIsGood(pending, peer, ticks, deadline, used);
      assert m <= used;
      AckedIsGone(pending, peer, ticks, m, used, k);
    }
  }

  lemma NeverAckedInTime(
    pending: map<Key, Entry>, peer: Option<Address>, ticks: seq<Tick>, deadline: int, keys: seq<Key>, used: nat)
    requires used <= |ticks| && SomePending(keys, PendingUpTo(pending, peer, ticks, used))
    requires OutOfTime(ticks, deadline, used) || Breaks(pending, peer, ticks, deadline, used)
    ensures !SomedayAcked(pending, peer, ticks, deadline, keys)
  {
    forall m: nat | AckedInTime(pending, peer, ticks, deadline, keys, m)
      ensures false
    {
      AckedEndsWell(pending, peer, ticks, deadline, keys, m, used);
    }
  }

  lemma InTimeMore(pending: map<Key, Entry>, peer: Option<Address>, ticks: seq<Tick>, deadline: int, n: nat)
    requires InTime(pending, peer, ticks, deadline, n) && n < |ticks| && ticks[n].now < deadline
    requires !Fails(PendingUpTo(pending, peer, ticks, n), peer, ticks[n])
    ensures InTime(pending, peer, ticks, deadline, n + 1)
  {
  }

  /**
   How waiting for acknowledgements ends: turns are taken for as long as a key is pending and
   the next one comes in time and does not fail.
   */
  predicate WaitEnds(
    sent: map<Key, Entry>, peer: Option<Address>, ticks: seq<Tick>, deadline: int, keys: seq<Key>, used: nat, acknowledged: bool)
  {
    && InTime(sent, peer, ticks, deadline, used)
    && AllStillPending(keys, sent, peer, ticks, used)
    && (acknowledged <==> !StillPending(keys, sent, peer, ticks, used))
    && (!acknowledged ==> OutOfTime(ticks, deadline, used) || Breaks(sent, peer, ticks, deadline, used))
  }

  lemma {:induction false} GoneWasAcked(sent: map<Key, Entry>, peer: Option<Address>, ticks: seq<Tick>, n: nat, k: Key)
    requires n <= |ticks| && k in sent && k !in PendingUpTo(sent, peer, ticks, n)
    ensures AckedWithin(peer, ticks, n, k)
  {
    if k in PendingUpTo(sent, peer, ticks, n - 1) {
      assert k in AckedBy(peer, ticks[n - 1].received);
    } else {
      GoneWasAcked(sent, peer, ticks, n - 1, k);
      var i :| 0 <= i < n - 1 && k in AckedBy(peer, ticks[i].received);
    }
  }

  /** Waiting ends as it does, and well if and only if all keys are acknowledged in time. */
  ghost predicate WaitIsExact(
    sent: map<Key, Entry>, peer: Option<Address>, ticks: seq<Tick>, deadline: int, keys: seq<Key>, used: nat, acknowledged: bool)
  {
    && WaitEnds(sent, peer, ticks, deadline, keys, used, acknowledged)
    && (acknowledged <==> SomedayAcked(sent, peer, ticks, deadline, keys))
    && (acknowledged ==> AckedInTime(sent, peer, ticks, deadline, keys, used))
  }

  /** A wait ends well if and only if all keys are acknowledged in turns that come in time and do not fail. */
  lemma EndsWellIffAcked(
    sent: map<Key, Entry>, peer: Option<Address>, ticks: seq<Tick>, deadline: int, keys: seq<Key>, used: nat, acknowledged: bool)
    requires WaitEnds(sent, peer, ticks, deadline, keys, used, acknowledged) && AllPending(keys, sent)
    ensures WaitIsExact(sent, peer, ticks, deadline, keys, used, acknowledged)
  {
    if acknowledged {
      forall k | k in keys
        ensures AckedWithin(peer, ticks, used, k)
      {
        GoneWasAcked(sent, peer, ticks, used, k);
      }
      assert AckedInTime(sent, peer, ticks, deadline, keys, used);
    } else {
      NeverAckedInTime(sent, peer, ticks, deadline, keys, used);
    }
  }

  lemma WaitFails(sent: map<Key, Entry>, peer: Option<Address>, ticks: seq<Tick>, deadline: int, keys: seq<Key>, used: nat)
    requires InTime(sent, peer, ticks, deadline, used) && AllStillPending(keys, sent, peer, ticks, used + 1) && AllPending(keys, sent)
    requires OutOfTime(ticks, deadline, used) || Breaks(sent, peer, ticks, deadline, used)
    ensures WaitIsExact(sent, peer, ticks, deadline, keys, used, false)
  {
    assert StillPending(keys, sent, peer, ticks, used);
    EndsWellIffAcked(sent, peer, ticks, deadline, keys, used, false);
  }

  lemma WaitSucceeds(sent: map<Key, Entry>, peer: Option<Address>, ticks: seq<Tick>, deadline: int, keys: seq<Key>, used: nat)
    requires InTime(sent, peer, ticks, deadline, used) && AllStillPending(keys, sent, peer, ticks, used) && AllPending(keys, sent)
    requires !SomePending(keys, PendingUpTo(sent, peer, ticks, used))
    ensures WaitIsExact(sent, peer, ticks, deadline, keys, used, true)
  {
    EndsWellIffAcked(sent, peer, ticks, deadline, keys, used, true);
  }

  // ---------------------------------------------------------------------------------
  // Waiting for bytes

  /** After `i` turns there are fewer than `size` bytes on the channel. */
  predicate StillShort(channels: seq<Receiver>, peer: Option<Address>, ticks: seq<Tick>, c: nat, size: nat, i: nat)
    requires |channels| == CHANNELS && c < CHANNELS
  {
    i <= |ticks| && |HeardUpTo(channels, peer, ticks, i)[c].buffer| < size
  }

  predicate AllShort(channels: seq<Receiver>, peer: Option<Address>, ticks: seq<Tick>, c: nat, size: nat, n: nat)
    requires |channels| == CHANNELS && c < CHANNELS
  {
    forall i | 0 <= i < n :: StillShort(channels, peer, ticks, c, size, i)
  }

  lemma ShortOnceMore(channels: seq<Receiver>, peer: Option<Address>, ticks: seq<Tick>, c: nat, size: nat, n: nat)
    requires |channels| == CHANNELS && c < CHANNELS
    requires AllShort(channels, peer, ticks, c, size, n) && n < |ticks| && |HeardUpTo(channels, peer, ticks, n)[c].buffer| < size
    ensures AllShort(channels, peer, ticks, c, size, n + 1)
  {
  }

  /** The turns come in time, do not fail, and bring enough bytes. */
  predicate FilledInTime(
    pending: map<Key, Entry>, channels: seq<Receiver>, peer: Option<Address>, ticks: seq<Tick>, deadline: int, c: nat, size: nat, n: nat)
    requires |channels| == CHANNELS && c < CHANNELS
  {
    InTime(pending, peer, ticks, deadline, n) && !StillShort(channels, peer, ticks, c, size, n)
  }

  lemma {:induction false} HeardGrows(channels: seq<Receiver>, peer: Option<Address>, ticks: seq<Tick>, c: nat, m: nat, n: nat)
    requires |channels| == CHANNELS && c < CHANNELS && m <= n <= |ticks|
    ensures HeardUpTo(channels, peer, ticks, m)[c].buffer <= HeardUpTo(channels, peer, ticks, n)[c].buffer
    decreases n
  {
    if m < n {
      HeardGrows(channels, peer, ticks, c, m, n - 1);
      HeardExtends(HeardUpTo(channels, peer, ticks, n - 1), peer, ticks[n - 1].received);
    }
  }

  /** How waiting for `size` bytes ends: turns are taken for as long as bytes are missing and the next one comes in time and does not fail. */
  predicate ReadEnds(
    pending: map<Key, Entry>, channels: seq<Receiver>, peer: Option<Address>, ticks: seq<Tick>, deadline: int, c: nat, size: nat,
    used: nat, r: Outcome<()>)
    requires |channels| == CHANNELS && c < CHANNELS
  {
    && InTime(pending, peer, ticks, deadline, used)
    && AllShort(channels, peer, ticks, c, size, used)
    && (r.Done? <==> !StillShort(channels, peer, ticks, c, size, used))
    && (r.TimedOut? ==> OutOfTime(ticks, deadline, used))
    && (r.Failed? ==> Breaks(pending, peer, ticks, deadline, used))
  }

  /** A read returns if and only if turns that come in time and do not fail bring enough bytes. */
  lemma ReadsIffFilled(
    pending: map<Key, Entry>, channels: seq<Receiver>, peer: Option<Address>, ticks: seq<Tick>, deadline: int, c: nat, size: nat,
    used: nat, r: Outcome<()>)
    requires |channels| == CHANNELS && c < CHANNELS && ReadEnds(pending, channels, peer, ticks, deadline, c, size, used, r)
    ensures r.Done? <==> exists m: nat :: FilledInTime(pending, channels, peer, ticks, deadline, c, size, m)
  {
    if r.Done? {
      assert FilledInTime(pending, channels, peer, ticks, deadline, c, size, used);
    } else {
      forall m: nat | InTime(pending, peer, ticks, deadline, m)
        ensures StillShort(channels, peer, ticks, c, size, m)
      {
        assert used < m ==> TurnIsGood(pending, peer, ticks, deadline, used);
        HeardGrows(channels, peer, ticks, c, m, used);
      }
    }
  }
}
