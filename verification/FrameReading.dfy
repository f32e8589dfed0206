/**
 Reading a command: waiting for its header, taking that, and waiting for its payload is waiting
 for a whole frame. When that ends well, and why it fails if it does.
 */
module FrameReading {
  import opened Octets
  import opened Channel
  import opened Packets
  import opened Environment
  import opened Retransmission
  import opened Turns

  const MAGIC: nat := 0x0A01

  /** The command a buffer starts with, if it starts with a whole one. */
  function Front(buffer: bytes): Option<(nat, bytes)> {
    if |buffer| < 8 || Little16(buffer[0], buffer[1]) != MAGIC then None
    else
      var end := 8 + Little16(buffer[4], buffer[5]);
      if end > |buffer| then None else Some((Little16(buffer[2], buffer[3]), buffer[8..end]))
  }

  lemma FrontStays(buffer: bytes, longer: bytes)
    requires buffer <= longer && Front(buffer).Some?
    ensures Front(longer) == Front(buffer)
  {
    var end := 8 + Little16(buffer[4], buffer[5]);
    assert longer[..|buffer|] == buffer;
    assert longer[8..end] == buffer[8..end];
  }

  // ---------------------------------------------------------------------------------
  // Taking bytes and going on

  lemma {:induction false} DrainLeavesFront(r: Receiver, k: nat)
    requires k <= |r.buffer|
    ensures r.buffer <= Drain(r).buffer
    ensures Drain(r.(buffer := r.buffer[k..])) == Drain(r).(buffer := Drain(r).buffer[k..])
    decreases |r.held|
  {
    if r.expected in r.held {
      DrainLeavesFront(ReleaseExpected(r), k);
      var body := r.held[r.expected];
      assert (r.buffer + body)[k..] == r.buffer[k..] + body;
    }
  }

  /** A reader's taking bytes from the front does not matter to what arrives behind. */
  lemma AcceptLeavesFront(r: Receiver, sequence: nat, body: bytes, k: nat)
    requires k <= |r.buffer|
    ensures r.buffer <= Accept(r, sequence, body).buffer
    ensures Accept(r.(buffer := r.buffer[k..]), sequence, body) ==
            Accept(r, sequence, body).(buffer := Accept(r, sequence, body).buffer[k..])
  {
    AcceptExtends(r, sequence, body);
    if sequence == r.expected {
      DrainLeavesFront(AppendExpected(r, body), k);
      assert (r.buffer + body)[k..] == r.buffer[k..] + body;
    }
  }

  /** The channels once `k` bytes were taken from one. */
  function Taken(channels: seq<Receiver>, c: nat, k: nat): (after: seq<Receiver>)
    requires c < |channels| && k <= |channels[c].buffer|
    ensures |after| == |channels|
  {
    channels[c := channels[c].(buffer := channels[c].buffer[k..])]
  }

  lemma HeardLeavesFront(channels: seq<Receiver>, peer: Option<Address>, received: Option<(bytes, Address)>, c: nat, k: nat)
    requires |channels| == CHANNELS && c < CHANNELS && k <= |channels[c].buffer|
    ensures channels[c].buffer <= Heard(channels, peer, received)[c].buffer
    ensures Heard(Taken(channels, c, k), peer, received) == Taken(Heard(channels, peer, received), c, k)
  {
    HeardExtends(channels, peer, received);
    if received.Some? && ParseData(received.value.0).Some? {
      var Frame(d, sequence, body) := ParseData(received.value.0).value;
      AcceptLeavesFront(channels[c], sequence, body, k);
      TwoPlaces(channels, c, channels[c].(buffer := channels[c].buffer[k..]), d, Accept(channels[d], sequence, body));
    }
  }

  lemma TwoPlaces(s: seq<Receiver>, c: nat, x: Receiver, d: nat, y: Receiver)
    requires c < |s| && d < |s|
    ensures c != d ==> s[c := x][d := y] == s[d := y][c := x]
    ensures c == d ==> s[c := x][d := y] == s[d := y]
  {
  }

  /** The buffer of a channel after `n` turns. */
  function BufferAt(channels: seq<Receiver>, peer: Option<Address>, ticks: seq<Tick>, c: nat, n: nat): bytes
    requires |channels| == CHANNELS && c < CHANNELS && n <= |ticks|
  {
    HeardUpTo(channels, peer, ticks, n)[c].buffer
  }

  lemma {:induction false} HeardAfterTaking(
    channels: seq<Receiver>, peer: Option<Address>, ticks: seq<Tick>, c: nat, k: nat, n: nat, m: nat)
    requires |channels| == CHANNELS && c < CHANNELS && n + m <= |ticks| && k <= |BufferAt(channels, peer, ticks, c, n)|
    ensures k <= |BufferAt(channels, peer, ticks, c, n + m)|
    ensures HeardUpTo(Taken(HeardUpTo(channels, peer, ticks, n), c, k), peer, ticks[n..], m) ==
            Taken(HeardUpTo(channels, peer, ticks, n + m), c, k)
  {
    if m > 0 {
      HeardAfterTaking(channels, peer, ticks, c, k, n, m - 1);
      assert ticks[n..][m - 1] == ticks[n + m - 1];
      HeardLeavesFront(HeardUpTo(channels, peer, ticks, n + m - 1), peer, ticks[n + m - 1].received, c, k);
    }
  }

  lemma {:induction false} PendingGoesOn(pending: map<Key, Entry>, peer: Option<Address>, ticks: seq<Tick>, n: nat, m: nat)
    requires n + m <= |ticks|
    ensures PendingUpTo(PendingUpTo(pending, peer, ticks, n), peer, ticks[n..], m) == PendingUpTo(pending, peer, ticks, n + m)
  {
    if m > 0 {
      PendingGoesOn(pending, peer, ticks, n, m - 1);
      assert ticks[n..][m - 1] == ticks[n + m - 1];
    }
  }

  lemma GoodTurnsGoOn(pending: map<Key, Entry>, peer: Option<Address>, ticks: seq<Tick>, deadline: int, n: nat, m: nat)
    requires InTime(pending, peer, ticks, deadline, n)
    requires InTime(PendingUpTo(pending, peer, ticks, n), peer, ticks[n..], deadline, m)
    ensures InTime(pending, peer, ticks, deadline, n + m)
  {
    forall i | 0 <= i < n + m
      ensures TurnIsGood(pending, peer, ticks, deadline, i)
    {
      if i >= n {
        assert TurnIsGood(PendingUpTo(pending, peer, ticks, n), peer, ticks[n..], deadline, i - n);
        PendingGoesOn(pending, peer, ticks, n, i - n);
      }
    }
  }

  lemma EndsGoOn(pending: map<Key, Entry>, peer: Option<Address>, ticks: seq<Tick>, deadline: int, n: nat, m: nat)
    requires n + m <= |ticks|
    ensures OutOfTime(ticks[n..], deadline, m) <==> OutOfTime(ticks, deadline, n + m)
    ensures Breaks(PendingUpTo(pending, peer, ticks, n), peer, ticks[n..], deadline, m) <==>
            Breaks(pending, peer, ticks, deadline, n + m)
  {
    PendingGoesOn(pending, peer, ticks, n, m);
  }

  // ---------------------------------------------------------------------------------
  // A command

  /** After `i` turns the channel does not start with a whole command. */
  predicate NoFront(channels: seq<Receiver>, peer: Option<Address>, ticks: seq<Tick>, i: nat)
    requires |channels| == CHANNELS
  {
    i <= |ticks| && Front(BufferAt(channels, peer, ticks, 0, i)).None?
  }

  predicate NoFrontBefore(channels: seq<Receiver>, peer: Option<Address>, ticks: seq<Tick>, n: nat)
    requires |channels| == CHANNELS
  {
    forall i | 0 <= i < n :: NoFront(channels, peer, ticks, i)
  }

  /** A header has arrived, with another first number. */
  predicate Misframed(buffer: bytes) {
    |buffer| >= 8 && Little16(buffer[0], buffer[1]) != MAGIC
  }

  /**
   How reading a command ends: turns are taken, each of them in time and none failing, until
   channel 0 starts with a whole command; or time is up; or the next turn fails; or the header
   is not one. If time is up behind a header, that is a failure.
   */
  predicate CommandEnds(
    pending: map<Key, Entry>, channels: seq<Receiver>, peer: Option<Address>, ticks: seq<Tick>, deadline: int, used: nat,
    r: Outcome<(nat, bytes)>)
    requires |channels| == CHANNELS
  {
    && InTime(pending, peer, ticks, deadline, used) && NoFrontBefore(channels, peer, ticks, used)
    && var buffer := BufferAt(channels, peer, ticks, 0, used);
       match r
       case Done(command) => Front(buffer) == Some(command)
       case TimedOut => |buffer| < 8 && OutOfTime(ticks, deadline, used)
       case Failed =>
         && Front(buffer).None?
         && (|| Breaks(pending, peer, ticks, deadline, used)
             || Misframed(buffer)
             || (|buffer| >= 8 && OutOfTime(ticks, deadline, used)))
  }

  /** Turns that come in time and do not fail bring a whole command. */
  ghost predicate BroughtInTime(pending: map<Key, Entry>, channels: seq<Receiver>, peer: Option<Address>, ticks: seq<Tick>, deadline: int)
    requires |channels| == CHANNELS
  {
    exists n: nat :: InTime(pending, peer, ticks, deadline, n) && !NoFront(channels, peer, ticks, n)
  }

  lemma LaterHasNoFront(
    pending: map<Key, Entry>, channels: seq<Receiver>, peer: Option<Address>, ticks: seq<Tick>, deadline: int, used: nat,
    r: Outcome<(nat, bytes)>, n: nat)
    requires |channels| == CHANNELS && CommandEnds(pending, channels, peer, ticks, deadline, used, r) && !r.Done?
    requires InTime(pending, peer, ticks, deadline, n)
    ensures NoFront(channels, peer, ticks, n)
  {
    if used < n {
      assert TurnIsGood(pending, peer, ticks, deadline, used);
      HeardGrows(channels, peer, ticks, 0, used, n);
    } else {
      HeardGrows(channels, peer, ticks, 0, n, used);
      if Front(BufferAt(channels, peer, ticks, 0, n)).Some? {
        FrontStays(BufferAt(channels, peer, ticks, 0, n), BufferAt(channels, peer, ticks, 0, used));
      }
    }
  }

  /** A command is returned if and only if turns that come in time and do not fail bring a whole one. */
  lemma ReturnsIffBrought(
    pending: map<Key, Entry>, channels: seq<Receiver>, peer: Option<Address>, ticks: seq<Tick>, deadline: int, used: nat,
    r: Outcome<(nat, bytes)>)
    requires |channels| == CHANNELS && CommandEnds(pending, channels, peer, ticks, deadline, used, r)
    ensures r.Done? <==> BroughtInTime(pending, channels, peer, ticks, deadline)
  {
    if r.Done? {
      assert InTime(pending, peer, ticks, deadline, used) && !NoFront(channels, peer, ticks, used);
    } else {
      forall n: nat | InTime(pending, peer, ticks, deadline, n)
        ensures NoFront(channels, peer, ticks, n)
      {
        LaterHasNoFront(pending, channels, peer, ticks, deadline, used, r, n);
      }
    }
  }

  /** After `used` turns, with `k` bytes taken from channel 0. */
  ghost predicate GoneOn(
    channels0: seq<Receiver>, pending0: map<Key, Entry>, peer: Option<Address>, feed0: seq<Tick>, used: nat, k: nat,
    channels: seq<Receiver>, pending: map<Key, Entry>, feed: seq<Tick>)
    requires |channels0| == CHANNELS
  {
    && used <= |feed0| && feed == feed0[used..] && pending == PendingUpTo(pending0, peer, feed0, used)
    && k <= |BufferAt(channels0, peer, feed0, 0, used)| && channels == Taken(HeardUpTo(channels0, peer, feed0, used), 0, k)
  }

  lemma NoTurnTakesBytes(
    channels0: seq<Receiver>, pending0: map<Key, Entry>, peer: Option<Address>, feed0: seq<Tick>, used: nat, k: nat,
    channels: seq<Receiver>, pending: map<Key, Entry>, feed: seq<Tick>)
    requires |channels0| == CHANNELS && GoneOn(channels0, pending0, peer, feed0, used, k, channels, pending, feed)
    requires |feed| == |feed0|
    ensures |channels| == CHANNELS && |channels[0].buffer| + k == |channels0[0].buffer|
  {
  }

  lemma TakenTwice(channels: seq<Receiver>, k: nat, l: nat)
    requires |channels| == CHANNELS && k + l <= |channels[0].buffer|
    ensures Taken(Taken(channels, 0, k), 0, l) == Taken(channels, 0, k + l)
  {
    assert channels[0].buffer[k..][l..] == channels[0].buffer[k + l..];
  }

  /** Going on from where one went on to. */
  lemma GoneFurther(
    channels0: seq<Receiver>, pending0: map<Key, Entry>, peer: Option<Address>, feed0: seq<Tick>, n: nat, k: nat,
    channels1: seq<Receiver>, pending1: map<Key, Entry>, feed1: seq<Tick>, m: nat, l: nat,
    channels2: seq<Receiver>, pending2: map<Key, Entry>, feed2: seq<Tick>)
    requires |channels0| == CHANNELS == |channels1|
    requires GoneOn(channels0, pending0, peer, feed0, n, k, channels1, pending1, feed1)
    requires GoneOn(channels1, pending1, peer, feed1, m, l, channels2, pending2, feed2)
    ensures GoneOn(channels0, pending0, peer, feed0, n + m, k + l, channels2, pending2, feed2)
  {
    PendingGoesOn(pending0, peer, feed0, n, m);
    HeardAfterTaking(channels0, peer, feed0, 0, k, n, m);
    TakenTwice(HeardUpTo(channels0, peer, feed0, n + m), k, l);
    assert feed0[n..][m..] == feed0[n + m..];
  }

  // ---------------------------------------------------------------------------------
  // The two reads of a command

  /** Fewer than eight bytes are no command. */
  lemma ShortHasNoFront(channels: seq<Receiver>, peer: Option<Address>, ticks: seq<Tick>, n: nat)
    requires |channels| == CHANNELS && AllShort(channels, peer, ticks, 0, 8, n)
    ensures NoFrontBefore(channels, peer, ticks, n)
  {
    forall i | 0 <= i < n
      ensures NoFront(channels, peer, ticks, i)
    {
      assert StillShort(channels, peer, ticks, 0, 8, i);
    }
  }

  /** No header in time. */
  lemma NoHeader(
    pending: map<Key, Entry>, channels: seq<Receiver>, peer: Option<Address>, ticks: seq<Tick>, deadline: int, used: nat,
    r: Outcome<()>, whole: Outcome<(nat, bytes)>)
    requires |channels| == CHANNELS && ReadEnds(pending, channels, peer, ticks, deadline, 0, 8, used, r)
    requires (r.TimedOut? && whole.TimedOut?) || (r.Failed? && whole.Failed?)
    ensures CommandEnds(pending, channels, peer, ticks, deadline, used, whole)
  {
    ShortHasNoFront(channels, peer, ticks, used);
  }

  /** A header that is none. */
  lemma BadHeader(
    pending: map<Key, Entry>, channels: seq<Receiver>, peer: Option<Address>, ticks: seq<Tick>, deadline: int, used: nat)
    requires |channels| == CHANNELS && ReadEnds(pending, channels, peer, ticks, deadline, 0, 8, used, Done(()))
    requires Misframed(BufferAt(channels, peer, ticks, 0, used))
    ensures CommandEnds(pending, channels, peer, ticks, deadline, used, Failed)
  {
    ShortHasNoFront(channels, peer, ticks, used);
  }

  /** A header with its number, and how many octets it announces. */
  predicate Announces(buffer: bytes, size: nat) {
    |buffer| >= 8 && Little16(buffer[0], buffer[1]) == MAGIC && Little16(buffer[4], buffer[5]) == size
  }

  lemma AnnouncedFront(buffer: bytes, longer: bytes, size: nat)
    requires Announces(buffer, size) && buffer <= longer
    ensures |longer| >= 8 && Front(longer) ==
            if |longer| < 8 + size then None else Some((Little16(buffer[2], buffer[3]), longer[8..][..size]))
  {
    assert longer[..|buffer|] == buffer;
    if |longer| >= 8 + size {
      assert longer[8..][..size] == longer[8..8 + size];
    }
  }

  /** While the second read is short of the payload, there is no whole command. */
  lemma PayloadShort(
    channels: seq<Receiver>, peer: Option<Address>, ticks: seq<Tick>, n: nat, m: nat, size: nat)
    requires |channels| == CHANNELS && n + m <= |ticks| && Announces(BufferAt(channels, peer, ticks, 0, n), size)
    ensures var taken := Taken(HeardUpTo(channels, peer, ticks, n), 0, 8);
            var buffer := BufferAt(channels, peer, ticks, 0, n + m);
            && BufferAt(channels, peer, ticks, 0, n) <= buffer
            && BufferAt(taken, peer, ticks[n..], 0, m) == buffer[8..]
            && (StillShort(taken, peer, ticks[n..], 0, size, m) <==> Front(buffer).None?)
  {
    HeardGrows(channels, peer, ticks, 0, n, n + m);
    HeardAfterTaking(channels, peer, ticks, 0, 8, n, m);
    AnnouncedFront(BufferAt(channels, peer, ticks, 0, n), BufferAt(channels, peer, ticks, 0, n + m), size);
  }

  lemma BothShort(
    channels: seq<Receiver>, peer: Option<Address>, ticks: seq<Tick>, n: nat, m: nat, size: nat)
    requires |channels| == CHANNELS && n + m <= |ticks| && Announces(BufferAt(channels, peer, ticks, 0, n), size)
    requires AllShort(channels, peer, ticks, 0, 8, n)
    requires AllShort(Taken(HeardUpTo(channels, peer, ticks, n), 0, 8), peer, ticks[n..], 0, size, m)
    ensures NoFrontBefore(channels, peer, ticks, n + m)
  {
    ShortHasNoFront(channels, peer, ticks, n);
    forall i | n <= i < n + m
      ensures NoFront(channels, peer, ticks, i)
    {
      assert StillShort(Taken(HeardUpTo(channels, peer, ticks, n), 0, 8), peer, ticks[n..], 0, size, i - n);
      PayloadShort(channels, peer, ticks, n, i - n, size);
    }
  }

  /** What the second read makes of the whole command. */
  predicate IsWhole(header: bytes, r: Outcome<bytes>, whole: Outcome<(nat, bytes)>) {
    && |header| == 8
    && whole == match r
                case Done(payload) => Done((Little16(header[2], header[3]), payload))
                case _ => Failed
  }

  /** A header, and then a payload or none. */
  lemma HeaderAndPayload(
    pending: map<Key, Entry>, channels: seq<Receiver>, peer: Option<Address>, ticks: seq<Tick>, deadline: int, n: nat, m: nat,
    header: bytes, r: Outcome<bytes>, whole: Outcome<(nat, bytes)>)
    requires |channels| == CHANNELS && ReadEnds(pending, channels, peer, ticks, deadline, 0, 8, n, Done(())) && n + m <= |ticks|
    requires |BufferAt(channels, peer, ticks, 0, n)| >= 8 && header == BufferAt(channels, peer, ticks, 0, n)[..8]
    requires IsWhole(header, r, whole) && Little16(header[0], header[1]) == MAGIC
    requires var taken := Taken(HeardUpTo(channels, peer, ticks, n), 0, 8);
             var size := Little16(header[4], header[5]);
             && ReadEnds(PendingUpTo(pending, peer, ticks, n), taken, peer, ticks[n..], deadline, 0, size, m, Without(r))
             && (r.Done? ==> size <= |BufferAt(taken, peer, ticks[n..], 0, m)| && r.value == BufferAt(taken, peer, ticks[n..], 0, m)[..size])
    ensures CommandEnds(pending, channels, peer, ticks, deadline, n + m, whole)
  {
    var size := Little16(header[4], header[5]);
    var buffer := BufferAt(channels, peer, ticks, 0, n);
    assert header[0] == buffer[0] && header[1] == buffer[1] && header[2] == buffer[2] && header[3] == buffer[3];
    assert header[4] == buffer[4] && header[5] == buffer[5];
    GoodTurnsGoOn(pending, peer, ticks, deadline, n, m);
    BothShort(channels, peer, ticks, n, m, size);
    PayloadShort(channels, peer, ticks, n, m, size);
    AnnouncedFront(BufferAt(channels, peer, ticks, 0, n), BufferAt(channels, peer, ticks, 0, n + m), size);
    EndsGoOn(pending, peer, ticks, deadline, n, m);
  }

  // ---------------------------------------------------------------------------------
  // Commands one after the other

  /** Commands of `k` bytes in all were read, in `used` turns that came in time and did not fail. */
  ghost predicate Progressed(
    channels0: seq<Receiver>, pending0: map<Key, Entry>, peer: Option<Address>, feed0: seq<Tick>, deadline: int, used: nat, k: nat,
    channels: seq<Receiver>, pending: map<Key, Entry>, feed: seq<Tick>)
    requires |channels0| == CHANNELS
  {
    && InTime(pending0, peer, feed0, deadline, used)
    && GoneOn(channels0, pending0, peer, feed0, used, k, channels, pending, feed)
  }

  lemma NotYetProgressed(channels: seq<Receiver>, pending: map<Key, Entry>, peer: Option<Address>, feed: seq<Tick>, deadline: int)
    requires |channels| == CHANNELS
    ensures Progressed(channels, pending, peer, feed, deadline, 0, 0, channels, pending, feed)
  {
    assert channels[0].buffer[0..] == channels[0].buffer;
    assert Taken(channels, 0, 0) == channels;
  }

  /** Behind the commands read, time is up within a frame, the next turn fails, or no header follows. */
  predicate ReadingFails(
    pending: map<Key, Entry>, channels: seq<Receiver>, peer: Option<Address>, ticks: seq<Tick>, deadline: int, used: nat, k: nat)
    requires |channels| == CHANNELS
  {
    && InTime(pending, peer, ticks, deadline, used) && k <= |BufferAt(channels, peer, ticks, 0, used)|
    && var buffer := BufferAt(channels, peer, ticks, 0, used)[k..];
       && Front(buffer).None?
       && (|| Breaks(pending, peer, ticks, deadline, used)
           || Misframed(buffer)
           || (|buffer| >= 8 && OutOfTime(ticks, deadline, used)))
  }

  lemma CommandMore(
    channels0: seq<Receiver>, pending0: map<Key, Entry>, peer: Option<Address>, feed0: seq<Tick>, deadline: int, n: nat, k: nat,
    channels1: seq<Receiver>, pending1: map<Key, Entry>, feed1: seq<Tick>, m: nat, r: Outcome<(nat, bytes)>,
    channels2: seq<Receiver>, pending2: map<Key, Entry>, feed2: seq<Tick>)
    requires |channels0| == CHANNELS == |channels1| && r.Done?
    requires Progressed(channels0, pending0, peer, feed0, deadline, n, k, channels1, pending1, feed1)
    requires CommandEnds(pending1, channels1, peer, feed1, deadline, m, r)
    requires GoneOn(channels1, pending1, peer, feed1, m, 8 + |r.value.1|, channels2, pending2, feed2)
    ensures Progressed(channels0, pending0, peer, feed0, deadline, n + m, k + (8 + |r.value.1|), channels2, pending2, feed2)
  {
    GoodTurnsGoOn(pending0, peer, feed0, deadline, n, m);
    GoneFurther(channels0, pending0, peer, feed0, n, k, channels1, pending1, feed1, m, 8 + |r.value.1|, channels2, pending2, feed2);
  }

  lemma CommandFails(
    channels0: seq<Receiver>, pending0: map<Key, Entry>, peer: Option<Address>, feed0: seq<Tick>, deadline: int, n: nat, k: nat,
    channels1: seq<Receiver>, pending1: map<Key, Entry>, feed1: seq<Tick>, m: nat)
    requires |channels0| == CHANNELS == |channels1|
    requires Progressed(channels0, pending0, peer, feed0, deadline, n, k, channels1, pending1, feed1)
    requires CommandEnds(pending1, channels1, peer, feed1, deadline, m, Failed)
    ensures ReadingFails(pending0, channels0, peer, feed0, deadline, n + m, k)
  {
    GoodTurnsGoOn(pending0, peer, feed0, deadline, n, m);
    HeardAfterTaking(channels0, peer, feed0, 0, k, n, m);
    EndsGoOn(pending0, peer, feed0, deadline, n, m);
  }
}
