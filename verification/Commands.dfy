/**
 Camera commands on channel 0: how they are framed, read back one by one, matched to a
 question, and used to log in.

 `frames` stands for what the camera sends on channel 0. All claims about the read
 position are made for the case that what has arrived is a prefix of these frames, laid
 end to end; they hold however the bytes were cut into packets.
 */
module Commands {
  import opened Octets
  import opened Channel
  import opened Packets
  import opened Environment
  import opened Retransmission
  import opened Turns
  import opened Session
  import opened FrameReading
  import Parser = ResultParser

  const MAX_COMMAND_BYTES: nat := 1024 * 1024
  const LOGIN_RESPONSE: nat := 0x6001
  const CANDIDATE_MS: int := 15_000
  const WRITE_MS: int := 5_000

  datatype Command = Command(command: nat, reserved: nat, payload: bytes)

  predicate Encodable(c: Command) {
    c.command < 0x1_0000 && c.reserved < 0x1_0000 && |c.payload| < 0x1_0000
  }

  function Encode(c: Command): (s: bytes)
    requires Encodable(c)
    ensures |s| == 8 + |c.payload|
  {
    PutLittle16(MAGIC) + PutLittle16(c.command) + PutLittle16(|c.payload|) + PutLittle16(c.reserved) + c.payload
  }

  predicate AllEncodable(frames: seq<Command>) {
    forall i | 0 <= i < |frames| :: Encodable(frames[i])
  }

  /** The first `n` frames laid end to end. */
  function Stream(frames: seq<Command>, n: nat): bytes
    requires AllEncodable(frames) && n <= |frames|
  {
    if n == 0 then [] else Stream(frames, n - 1) + Encode(frames[n - 1])
  }

  lemma {:induction false} StreamPrefix(frames: seq<Command>, i: nat, n: nat)
    requires AllEncodable(frames) && i <= n <= |frames|
    ensures Stream(frames, i) <= Stream(frames, n)
    decreases n
  {
    if i < n {
      StreamPrefix(frames, i, n - 1);
    }
  }

  lemma HeaderFields(c: Command)
    requires Encodable(c)
    ensures var s := Encode(c);
            && Little16(s[0], s[1]) == MAGIC && Little16(s[2], s[3]) == c.command
            && Little16(s[4], s[5]) == |c.payload| && s[8..] == c.payload
  {
    var s := Encode(c);
    assert s[..2] == PutLittle16(MAGIC) && s[2..4] == PutLittle16(c.command);
    assert s[4..6] == PutLittle16(|c.payload|);
  }

  /** Eight octets and as many more as they announce, taken on a boundary, are the next frame. */
  lemma NextFrame(frames: seq<Command>, i: nat, header: bytes, payload: bytes)
    requires AllEncodable(frames) && i <= |frames| && |header| == 8
    requires |payload| == Little16(header[4], header[5])
    requires Stream(frames, i) + header + payload <= Stream(frames, |frames|)
    ensures i < |frames| && payload == frames[i].payload && Little16(header[2], header[3]) == frames[i].command
    ensures Stream(frames, i) + header + payload == Stream(frames, i + 1)
  {
    var done, read := Stream(frames, i), header + payload;
    assert done + header + payload == done + read;
    assert i < |frames|;
    StreamPrefix(frames, i + 1, |frames|);
    HeaderFields(frames[i]);
    SameStart(done, read, Encode(frames[i]), Stream(frames, |frames|));
  }

  /** Two frames at the same place in a stream, each as long as its header says, are one. */
  lemma SameStart(done: bytes, read: bytes, f: bytes, all: bytes)
    requires |read| >= 8 && |f| >= 8 && done + read <= all && done + f <= all
    requires |read| == 8 + Little16(read[4], read[5]) && |f| == 8 + Little16(f[4], f[5])
    ensures read == f
  {
    assert all[|done|..|done| + |read|] == read && all[|done|..|done| + |f|] == f;
    assert read[4] == all[|done| + 4] == f[4] && read[5] == all[|done| + 5] == f[5];
  }

  // ---------------------------------------------------------------------------------
  // Requests

  predicate Plain(text: string) {
    forall i | 0 <= i < |text| :: text[i] as int >= 0x20
  }

  predicate Ascii(text: string) {
    forall i | 0 <= i < |text| :: text[i] as int < 0x80
  }

  function AsciiBytes(text: string): (s: bytes)
    requires Ascii(text)
    ensures |s| == |text|
  {
    seq(|text|, i requires 0 <= i < |text| => text[i] as int)
  }

  predicate Requestable(path: string, user: string, password: string) {
    && 1 <= |path| <= 2048 && |user| <= 512 && |password| <= 512
    && Plain(path) && Plain(user) && Plain(password)
    && Ascii(path) && Ascii(user) && Ascii(password)
  }

  predicate AllPrintable(text: string) {
    forall i | 0 <= i < |text| :: 32 <= text[i] as int < 128
  }

  /** Refused are exactly an empty path, texts that are too long, and characters beyond printable ASCII. */
  lemma RequestsRefused(path: string, user: string, password: string)
    ensures MakeCgiRequest(path, user, password).Some? <==>
            && path != "" && |path| <= 2048 && |user| <= 512 && |password| <= 512
            && AllPrintable(path) && AllPrintable(user) && AllPrintable(password)
  {
    PrintableIs(path);
    PrintableIs(user);
    PrintableIs(password);
    RequestableIsMade(path, user, password);
  }

  lemma PrintableIs(text: string)
    ensures AllPrintable(text) <==> Plain(text) && Ascii(text)
  {
  }

  lemma RequestableIsMade(path: string, user: string, password: string)
    ensures MakeCgiRequest(path, user, password).Some? <==> Requestable(path, user, password)
  {
  }

  function RequestText(path: string, user: string, password: string): string {
    "GET /" + path + "loginuse=" + user + "&loginpas=" + password + "&user=admin&pwd=888888&"
  }

  function MakeCgiRequest(path: string, user: string, password: string): Option<bytes> {
    if !Requestable(path, user, password) then None
    else Some(Encode(Command(0, 0, AsciiBytes(RequestText(path, user, password)))))
  }

  lemma SmallFrame(c: Command)
    requires Encodable(c) && |c.payload| <= 4088
    ensures ChunkCount(Encode(c)) <= 4
  {
  }

  /** A request is one frame, and needs at most four chunks. */
  lemma RequestIsOneFrame(path: string, user: string, password: string) returns (c: Command)
    requires Requestable(path, user, password)
    ensures Encodable(c) && c.command == 0 && ChunkCount(Encode(c)) <= 4
    ensures MakeCgiRequest(path, user, password) == Some(Encode(c))
  {
    c := Command(0, 0, AsciiBytes(RequestText(path, user, password)));
    SmallFrame(c);
  }

  /** A request's octets: the head with its length, and then the text that names path, user and password. */
  lemma RequestOctets(path: string, user: string, password: string)
    requires Requestable(path, user, password)
    ensures var text := "GET /" + path + "loginuse=" + user + "&loginpas=" + password + "&user=admin&pwd=888888&";
            && Ascii(text)
            && MakeCgiRequest(path, user, password) ==
               Some([0x01, 0x0A, 0x00, 0x00, |text| % 256, |text| / 256, 0x00, 0x00] + AsciiBytes(text))
  {
    HeadOctets(|RequestText(path, user, password)|);
  }

  lemma HeadOctets(n: nat)
    requires n < 0x1_0000
    ensures PutLittle16(MAGIC) + PutLittle16(0) + PutLittle16(n) + PutLittle16(0) ==
            [0x01, 0x0A, 0x00, 0x00, n % 256, n / 256, 0x00, 0x00]
  {
  }

  lemma AsciiBytesDiffer(a: string, b: string)
    requires Ascii(a) && Ascii(b) && AsciiBytes(a) == AsciiBytes(b)
    ensures a == b
  {
    forall i | 0 <= i < |a|
      ensures a[i] == b[i]
    {
      assert AsciiBytes(a)[i] == AsciiBytes(b)[i];
    }
  }

  lemma MiddleDiffers(before: string, a: string, b: string, after: string)
    requires before + a + after == before + b + after
    ensures a == b
  {
    assert |a| == |b|;
    assert (before + a + after)[|before|..|before| + |a|] == a;
    assert (before + b + after)[|before|..|before| + |a|] == b;
  }

  /** Requests of the same user for the same path are the same only if the password is. */
  lemma RequestTellsPassword(path: string, user: string, a: string, b: string)
    requires Requestable(path, user, a) && MakeCgiRequest(path, user, a) == MakeCgiRequest(path, user, b)
    ensures a == b
  {
    var s, t := RequestText(path, user, a), RequestText(path, user, b);
    RequestOctets(path, user, a);
    RequestOctets(path, user, b);
    assert AsciiBytes(s) == MakeCgiRequest(path, user, a).value[8..] == AsciiBytes(t);
    AsciiBytesDiffer(s, t);
    MiddleDiffers("GET /" + path + "loginuse=" + user + "&loginpas=", a, b, "&user=admin&pwd=888888&");
  }

  /** The packets that send a request, in chunks with consecutive numbers. */
  ghost predicate IsSending(part: seq<Traffic>, request: bytes, to: Address) {
    exists first :: part == DataPackets(0, first, request, ChunkCount(request), to)
  }

  /** The packets went out one after the other at some point. */
  ghost predicate Contains(t: seq<Traffic>, part: seq<Traffic>) {
    exists i | 0 <= i <= |t| :: part <= t[i..]
  }

  lemma ContainsStays(t: seq<Traffic>, later: seq<Traffic>, part: seq<Traffic>)
    requires Contains(t, part) && t <= later
    ensures Contains(later, part)
  {
    var i :| 0 <= i <= |t| && part <= t[i..];
    assert t[i..] <= later[i..];
  }

  lemma ContainsAfter(before: seq<Traffic>, part: seq<Traffic>, t: seq<Traffic>)
    requires before + part <= t
    ensures Contains(t, part)
  {
    assert (before + part)[|before|..] == part <= t[|before|..];
  }

  /** Sending a request: what is pending then, for which keys, and how waiting for them ends within five seconds. */
  ghost predicate Requested(
    pending0: map<Key, Entry>, first: nat, peer: Option<Address>, feed: seq<Tick>, clock: int, request: bytes,
    sent: map<Key, Entry>, used: nat, acknowledged: bool)
  {
    && sent == SentPending(pending0, 0, first, request, clock, ChunkCount(request))
    && WaitIsExact(sent, peer, feed, clock + 5000, KeysFrom(0, first, ChunkCount(request)), used, acknowledged)
  }

  method WriteCommand(session: CS2Session, request: bytes)
    returns (r: Outcome<()>, ghost part: seq<Traffic>, ghost sent: map<Key, Entry>, ghost used: nat)
    requires session.Valid()
    modifies session`outgoing, session`pending, session`trace, session`channels, session`peer, session`closed,
             session`feed, session`clock
    ensures session.Valid() && r != TimedOut && old(session.Arrived(0)) <= session.Arrived(0)
    ensures old(session.trace) <= session.trace
    ensures |request| < 8 || !old(session.Open()) ==> r.Failed? && session.trace == old(session.trace)
    ensures |request| >= 8 && old(session.Open()) ==>
              old(session.trace) + part <= session.trace && IsSending(part, request, old(session.peer).value)
    ensures |request| >= 8 && old(session.Open()) ==>
              Requested(old(session.pending), old(session.outgoing)[0], old(session.peer), old(session.feed), old(session.clock),
                        request, sent, used, r.Done?)
    ensures r.Done? ==> session.Open() && session.peer == old(session.peer) && Contains(session.trace, part)
    ensures r.Done? ==>
              && Waited(old(session.channels), old(session.feed), used, session.peer, session.channels, session.feed)
              && session.pending == PendingUpTo(sent, session.peer, old(session.feed), used)
  {
    part, sent, used := [], session.pending, 0;
    if |request| < 8 {
      return Failed, part, sent, used;
    }
    if session.Open() {
      part := DataPackets(0, session.outgoing[0], request, ChunkCount(request), session.peer.value);
    }
    ghost var before := session.trace;
    ghost var keys;
    r, sent, keys, used := session.Write(0, request, WRITE_MS);
    if r.Done? {
      ContainsAfter(before, part, session.trace);
    }
  }

  // ---------------------------------------------------------------------------------
  // Reading

  /** What has arrived on channel 0 is a prefix of the frames. */
  ghost predicate Sane(session: CS2Session, frames: seq<Command>)
    requires session.Valid() && AllEncodable(frames)
    reads session
  {
    session.Arrived(0) <= Stream(frames, |frames|)
  }

  /** The read position lies on the boundary behind the first `i` frames. */
  ghost predicate AtFrame(session: CS2Session, frames: seq<Command>, i: nat)
    requires session.Valid() && AllEncodable(frames)
    reads session
  {
    i <= |frames| && session.taken[0] == Stream(frames, i)
  }

  lemma FrontParts(buffer: bytes)
    requires Front(buffer).Some?
    ensures |buffer[8..]| >= |Front(buffer).value.1| && buffer[8..][..|Front(buffer).value.1|] == Front(buffer).value.1
  {
  }

  lemma FrontFrame(c: Command, buffer: bytes)
    requires Encodable(c) && Encode(c) <= buffer
    ensures Front(buffer) == Some((c.command, c.payload))
  {
    HeaderFields(c);
    assert buffer[..|Encode(c)|][8..] == c.payload;
  }

  /** What was read is a header and as many octets as it announces. */
  predicate IsFrame(header: bytes, command: nat, payload: bytes) {
    |header| == 8 && Little16(header[2], header[3]) == command && Little16(header[4], header[5]) == |payload|
  }

  /** `read_exact` on channel 0: so many turns, so many bytes. */
  method ReadBytes(session: CS2Session, size: nat, timeout: int) returns (r: Outcome<bytes>, ghost used: nat)
    requires session.Valid() && size <= MAX_FRAME_BYTES
    modifies session`pending, session`trace, session`channels, session`peer, session`closed, session`feed,
             session`clock, session`taken
    ensures session.Valid() && old(session.Arrived(0)) <= session.Arrived(0) && old(session.trace) <= session.trace
    ensures |session.feed| <= |old(session.feed)|
    ensures !old(session.Open()) ==> r.Failed?
    ensures !r.Failed? ==> session.Open() && session.peer == old(session.peer)
    ensures old(session.Open()) ==>
              ReadEnds(old(session.pending), old(session.channels), old(session.peer), old(session.feed),
                       old(session.clock) + timeout, 0, size, used, Without(r))
    ensures r.TimedOut? ==>
              && session.taken == old(session.taken) && |session.channels[0].buffer| < size
              && session.Late(old(session.clock) + timeout)
    ensures r.Done? ==>
              && session.taken[0] == old(session.taken)[0] + r.value && |r.value| == size
              && (if used == 0 then session.clock == old(session.clock) else session.clock < old(session.clock) + timeout)
              && GoneOn(old(session.channels), old(session.pending), old(session.peer), old(session.feed), used, |r.value|,
                        session.channels, session.pending, session.feed)
              && r.value == BufferAt(old(session.channels), old(session.peer), old(session.feed), 0, used)[..size]
    ensures old(session.Open()) && size <= |old(session.channels)[0].buffer| ==>
              r == Done(old(session.channels)[0].buffer[..size]) && session.channels == Taken(old(session.channels), 0, size)
  {
    r, used := session.ReadExact(0, size, timeout);
  }

  /** The payload a header announces, once that was taken. */
  method ReadPayload(
    session: CS2Session, header: bytes, timeout: int,
    ghost channels0: seq<Receiver>, ghost pending0: map<Key, Entry>, ghost feed0: seq<Tick>, ghost used0: nat, ghost deadline: int)
    returns (r: Outcome<(nat, bytes)>, ghost used: nat)
    requires session.Valid() && session.Open() && |header| == 8 && Little16(header[0], header[1]) == MAGIC
    requires |channels0| == CHANNELS && used0 <= |feed0|
    requires GoneOn(channels0, pending0, session.peer, feed0, used0, 8, session.channels, session.pending, session.feed)
    requires header == BufferAt(channels0, session.peer, feed0, 0, used0)[..8]
    requires ReadEnds(pending0, channels0, session.peer, feed0, deadline, 0, 8, used0, Done(()))
    modifies session`pending, session`trace, session`channels, session`peer, session`closed, session`feed,
             session`clock, session`taken
    ensures session.Valid() && old(session.Arrived(0)) <= session.Arrived(0) && old(session.trace) <= session.trace
    ensures |session.feed| <= |old(session.feed)| && !r.TimedOut?
    ensures old(session.clock) + timeout == deadline ==>
              CommandEnds(pending0, channels0, old(session.peer), feed0, deadline, used, r)
    ensures r.Done? ==>
              && session.Open() && session.peer == old(session.peer)
              && IsFrame(header, r.value.0, r.value.1) && session.taken[0] == old(session.taken)[0] + r.value.1
              && GoneOn(channels0, pending0, session.peer, feed0, used, 8 + |r.value.1|, session.channels, session.pending, session.feed)
    ensures var length := Little16(header[4], header[5]);
            length <= |old(session.channels)[0].buffer| ==>
              r == Done((Little16(header[2], header[3]), old(session.channels)[0].buffer[..length]))
  {
    ghost var channels1, pending1, feed1 := session.channels, session.pending, session.feed;
    ghost var more;
    var payload;
    payload, more := ReadBytes(session, Little16(header[4], header[5]), timeout);
    r := if payload.Done? then Done((Little16(header[2], header[3]), payload.value)) else Failed;
    used := used0 + more;
    if old(session.clock) + timeout == deadline {
      HeaderAndPayload(pending0, channels0, old(session.peer), feed0, deadline, used0, more, header, payload, r);
    }
    if payload.Done? {
      GoneFurther(channels0, pending0, session.peer, feed0, used0, 8, channels1, pending1, feed1, more, |payload.value|,
                  session.channels, session.pending, session.feed);
    }
  }

  /** A header and its payload; a command that is waiting is returned. */
  method ReadFrame(session: CS2Session, timeout: int) returns (r: Outcome<(nat, bytes)>, ghost header: bytes, ghost used: nat)
    requires session.Valid()
    modifies session`pending, session`trace, session`channels, session`peer, session`closed, session`feed,
             session`clock, session`taken
    ensures session.Valid() && old(session.Arrived(0)) <= session.Arrived(0) && old(session.trace) <= session.trace
    ensures |session.feed| <= |old(session.feed)|
    ensures !r.Failed? ==> session.Open() && session.peer == old(session.peer)
    ensures r == TimedOut ==>
              session.taken == old(session.taken) && |session.channels[0].buffer| < 8 && session.Late(old(session.clock) + timeout)
    ensures r.Done? ==>
              IsFrame(header, r.value.0, r.value.1) && session.taken[0] == old(session.taken)[0] + header + r.value.1
    ensures old(session.Open()) && Front(old(session.channels)[0].buffer).Some? ==>
              r == Done(Front(old(session.channels)[0].buffer).value)
    ensures !old(session.Open()) ==> r.Failed?
    ensures old(session.Open()) && timeout >= 0 ==>
              CommandEnds(old(session.pending), old(session.channels), old(session.peer), old(session.feed),
                          old(session.clock) + timeout, used, r)
    ensures r.Done? ==>
              GoneOn(old(session.channels), old(session.pending), old(session.peer), old(session.feed), used, 8 + |r.value.1|,
                     session.channels, session.pending, session.feed)
  {
    if Front(session.channels[0].buffer).Some? {
      FrontParts(session.channels[0].buffer);
    }
    ghost var pending, channels, peer, ticks := session.pending, session.channels, session.peer, session.feed;
    var deadline := session.clock + timeout;
    var first;
    first, used := ReadBytes(session, 8, timeout);
    if !first.Done? {
      r := if first.Failed? then Failed else TimedOut;
      if old(session.Open()) {
        NoHeader(pending, channels, peer, ticks, deadline, used, Without(first), r);
      }
      return r, [], used;
    }
    header := first.value;
    var head := first.value;
    var magic, length := Little16(head[0], head[1]), Little16(head[4], head[5]);
    if magic != MAGIC || length > MAX_COMMAND_BYTES {
      BadHeader(pending, channels, peer, ticks, deadline, used);
      return Failed, header, used;
    }
    var remaining := if deadline - session.clock > 0 then deadline - session.clock else 0;
    r, used := ReadPayload(session, head, remaining, channels, pending, ticks, used, deadline);
  }

  /**
   Read one command. A normal return has consumed exactly the next frame and a timeout has
   consumed nothing, so both leave the read position on a boundary. A frame that is waiting
   is returned.
   */
  method ReadCommand(session: CS2Session, timeout: int, ghost frames: seq<Command>, ghost i: nat)
    returns (r: Outcome<(nat, bytes)>, ghost used: nat)
    requires session.Valid() && AllEncodable(frames)
    modifies session`pending, session`trace, session`channels, session`peer, session`closed, session`feed,
             session`clock, session`taken
    ensures session.Valid() && old(session.Arrived(0)) <= session.Arrived(0) && old(session.trace) <= session.trace
    ensures |session.feed| <= |old(session.feed)|
    ensures r.Done? && |session.feed| == |old(session.feed)| ==>
              |session.channels[0].buffer| < |old(session.channels)[0].buffer|
    ensures !r.Failed? ==> session.Open() && session.peer == old(session.peer)
    ensures r == TimedOut ==>
              session.taken == old(session.taken) && |session.channels[0].buffer| < 8 && session.Late(old(session.clock) + timeout)
    ensures i < |frames| && old(session.Open()) && Encode(frames[i]) <= old(session.channels)[0].buffer ==>
              r == Done((frames[i].command, frames[i].payload))
    ensures !old(session.Open()) ==> r.Failed?
    ensures old(session.Open()) && timeout >= 0 ==>
              CommandEnds(old(session.pending), old(session.channels), old(session.peer), old(session.feed),
                          old(session.clock) + timeout, used, r)
    ensures r.Done? ==>
              GoneOn(old(session.channels), old(session.pending), old(session.peer), old(session.feed), used, 8 + |r.value.1|,
                     session.channels, session.pending, session.feed)
    ensures Sane(session, frames) && old(AtFrame(session, frames, i)) && r.Done? ==>
              && i < |frames| && r.value == (frames[i].command, frames[i].payload)
              && AtFrame(session, frames, i + 1)
  {
    if i < |frames| && Encode(frames[i]) <= session.channels[0].buffer {
      FrontFrame(frames[i], session.channels[0].buffer);
    }
    ghost var header;
    ghost var pending, channels, peer, ticks := session.pending, session.channels, session.peer, session.feed;
    r, header, used := ReadFrame(session, timeout);
    if r.Done? && |session.feed| == |ticks| {
      NoTurnTakesBytes(channels, pending, peer, ticks, used, 8 + |r.value.1|, session.channels, session.pending, session.feed);
    }
    if r.Done? && Sane(session, frames) && old(AtFrame(session, frames, i)) {
      NextFrame(frames, i, header, r.value.1);
    }
  }

  /** Another command, behind those read in `used0` turns. */
  method ReadOn(
    session: CS2Session, deadline: int, ghost frames: seq<Command>, ghost i: nat, ghost channels0: seq<Receiver>,
    ghost pending0: map<Key, Entry>, ghost feed0: seq<Tick>, ghost used0: nat, ghost k0: nat)
    returns (r: Outcome<(nat, bytes)>, ghost used: nat, ghost k: nat)
    requires session.Valid() && AllEncodable(frames) && |channels0| == CHANNELS && session.clock < deadline
    requires Progressed(channels0, pending0, session.peer, feed0, deadline, used0, k0, session.channels, session.pending, session.feed)
    modifies session`pending, session`trace, session`channels, session`peer, session`closed, session`feed,
             session`clock, session`taken
    ensures session.Valid() && old(session.Arrived(0)) <= session.Arrived(0) && old(session.trace) <= session.trace
    ensures !r.Failed? ==> session.Open() && session.peer == old(session.peer)
    ensures r == TimedOut ==>
              session.taken == old(session.taken) && |session.channels[0].buffer| < 8 && session.Late(deadline)
    ensures r.Done? ==>
              && Progressed(channels0, pending0, session.peer, feed0, deadline, used, k, session.channels, session.pending, session.feed)
              && |session.feed| <= |old(session.feed)|
              && (|session.feed| == |old(session.feed)| ==> |session.channels[0].buffer| < |old(session.channels)[0].buffer|)
    ensures r.Failed? && old(session.Open()) ==> ReadingFails(pending0, channels0, old(session.peer), feed0, deadline, used, k)
    ensures Sane(session, frames) && old(AtFrame(session, frames, i)) && r.Done? ==>
              && i < |frames| && r.value == (frames[i].command, frames[i].payload)
              && AtFrame(session, frames, i + 1)
  {
    ghost var channels1, pending1, feed1, more := session.channels, session.pending, session.feed, 0;
    r, more := ReadCommand(session, deadline - session.clock, frames, i);
    used, k := used0 + more, k0;
    if r.Done? {
      CommandMore(channels0, pending0, session.peer, feed0, deadline, used0, k0, channels1, pending1, feed1, more, r,
                  session.channels, session.pending, session.feed);
      k := k0 + (8 + |r.value.1|);
    } else if r.Failed? && old(session.Open()) {
      CommandFails(channels0, pending0, old(session.peer), feed0, deadline, used0, k0, channels1, pending1, feed1, more);
    }
  }

  /** The frame answers one of the commands with a number. */
  predicate Answers(f: Command, ids: set<nat>) {
    f.command in ids && Parser.FirstFrom(f.payload, 0).Some?
  }

  method AnswerOf(command: nat, payload: bytes, ids: set<nat>) returns (result: Option<int>)
    ensures result == if command in ids then Parser.FirstFrom(payload, 0) else None
  {
    if command !in ids {
      return None;
    }
    result := Parser.ParseResult(payload);
  }

  /** None of the frames from `i` up to but not including `j` answers. */
  predicate NoAnswer(frames: seq<Command>, i: nat, j: nat, ids: set<nat>) {
    forall k | i <= k < j && k < |frames| :: !Answers(frames[k], ids)
  }

  /** Of the frames from `i` up to but not including `j` none answers, or only the last one, and with this. */
  predicate Responded(frames: seq<Command>, i: nat, j: nat, ids: set<nat>, answer: Option<(nat, int)>) {
    && i <= j
    && match answer
       case None => NoAnswer(frames, i, j, ids)
       case Some((command, result)) =>
         && i < j <= |frames| && Answers(frames[j - 1], ids) && NoAnswer(frames, i, j - 1, ids)
         && command == frames[j - 1].command && Parser.FirstFrom(frames[j - 1].payload, 0) == Some(result)
  }

  lemma LastFrame(frames: seq<Command>, i: nat, j: nat, ids: set<nat>, result: Option<int>)
    requires Responded(frames, i, j, ids, None) && j < |frames|
    requires result == if frames[j].command in ids then Parser.FirstFrom(frames[j].payload, 0) else None
    ensures Responded(frames, i, j + 1, ids, if result.Some? then Some((frames[j].command, result.value)) else None)
  {
  }

  /**
   Read until a frame answers. On every return but a failure the position is on the
   boundary behind frame `j`, no frame passed over on the way would have answered, and an
   answer is that of the last frame read.
   */
  method ReadResponse(session: CS2Session, ids: set<nat>, deadline: int, ghost frames: seq<Command>, ghost i: nat)
    returns (r: Outcome<Option<(nat, int)>>, ghost j: nat, ghost used: nat, ghost k: nat)
    requires session.Valid() && AllEncodable(frames)
    modifies session`pending, session`trace, session`channels, session`peer, session`closed, session`feed,
             session`clock, session`taken
    ensures session.Valid() && old(session.Arrived(0)) <= session.Arrived(0) && r != TimedOut
    ensures old(session.trace) <= session.trace
    ensures r.Done? ==> (old(session.Open()) ==> session.Open()) && session.peer == old(session.peer)
    ensures r == Done(None) ==> session.clock >= deadline || (|session.channels[0].buffer| < 8 && session.Late(deadline))
    ensures r.Failed? && old(session.Open()) ==>
              ReadingFails(old(session.pending), old(session.channels), old(session.peer), old(session.feed), deadline, used, k)
    ensures Sane(session, frames) && old(AtFrame(session, frames, i)) && r.Done? ==>
              AtFrame(session, frames, j) && Responded(frames, i, j, ids, r.value)
  {
    j, used, k := i, 0, 0;
    ghost var onFrame := AtFrame(session, frames, i);
    ghost var channels0, pending0, feed0 := session.channels, session.pending, session.feed;
    NotYetProgressed(channels0, pending0, session.peer, feed0, deadline);
    while session.clock < deadline
      invariant session.Valid() && old(session.Arrived(0)) <= session.Arrived(0) && old(session.trace) <= session.trace
      invariant session.peer == old(session.peer) && (old(session.Open()) ==> session.Open())
      invariant Progressed(channels0, pending0, session.peer, feed0, deadline, used, k, session.channels, session.pending, session.feed)
      invariant onFrame && Sane(session, frames) ==>
                  AtFrame(session, frames, j) && Responded(frames, i, j, ids, None)
      decreases |session.feed|, |session.channels[0].buffer|
    {
      var c;
      c, used, k := ReadOn(session, deadline, frames, j, channels0, pending0, feed0, used, k);
      if !c.Done? {
        return if c.Failed? then Failed else Done(None), j, used, k;
      }
      var (command, payload) := c.value;
      var result := AnswerOf(command, payload, ids);
      if onFrame && Sane(session, frames) {
        LastFrame(frames, i, j, ids, result);
      }
      j := j + 1;
      if result.Some? {
        return Done(Some((command, result.value))), j, used, k;
      }
    }
    return Done(None), j, used, k;
  }

  // ---------------------------------------------------------------------------------
  // Logging in

  function LoginCandidates(password: string): seq<string> {
    if password == "888888" then ["888888", ""]
    else if password == "" then ["", "888888"]
    else [password, "888888", ""]
  }

  /** The enumerated password first, the common and the empty one behind it, none twice. */
  lemma CandidatesAreDistinct(password: string)
    ensures var candidates := LoginCandidates(password);
            && 2 <= |candidates| <= 3 && candidates[0] == password
            && (forall i, j | 0 <= i < j < |candidates| :: candidates[i] != candidates[j])
            && "888888" in candidates && "" in candidates
  {
    assert "888888" != "";
    assert ["888888", ""][0] == "888888" && ["", "888888"][1] == "888888";
  }

  /** `list(dict.fromkeys(texts))`: each text where it first occurs. */
  function Distinct(texts: seq<string>): seq<string> {
    if texts == [] then []
    else
      var front, last := Distinct(texts[..|texts| - 1]), texts[|texts| - 1];
      if last in front then front else front + [last]
  }

  lemma DistinctSnoc(texts: seq<string>, last: string)
    ensures Distinct(texts + [last]) == if last in Distinct(texts) then Distinct(texts) else Distinct(texts) + [last]
  {
    assert (texts + [last])[..|texts|] == texts;
  }

  /** The candidates are the given, the common and the empty password, each where it first occurs. */
  lemma CandidatesInOrder(password: string)
    ensures LoginCandidates(password) == Distinct([] + [password] + ["888888"] + [""])
  {
    assert "888888" != "";
    DistinctSnoc([], password);
    DistinctSnoc([] + [password], "888888");
    DistinctSnoc([] + [password] + ["888888"], "");
  }

  datatype Login =
    | Accepted(candidate: nat, attempts: seq<Option<int>>)
    | Rejected(attempts: seq<Option<int>>)
    | Broken

  function StatusRequest(password: string): Option<bytes> {
    MakeCgiRequest("get_status.cgi?name=admin&", "admin", password)
  }

  function StatusRequests(candidates: seq<string>): seq<Option<bytes>> {
    seq(|candidates|, k requires 0 <= k < |candidates| => StatusRequest(candidates[k]))
  }

  /** Sending the request was not acknowledged within five seconds, or reading behind it failed within the window. */
  ghost predicate AttemptFails(
    pending0: map<Key, Entry>, channels0: seq<Receiver>, first: nat, peer: Option<Address>, feed: seq<Tick>, clock: int,
    request: bytes, window: int, used: nat, more: nat, k: nat)
    requires |channels0| == CHANNELS
  {
    var sent := SentPending(pending0, 0, first, request, clock, ChunkCount(request));
    || !SomedayAcked(sent, peer, feed, clock + 5000, KeysFrom(0, first, ChunkCount(request)))
    || (used <= |feed|
        && ReadingFails(PendingUpTo(sent, peer, feed, used), HeardUpTo(channels0, peer, feed, used), peer, feed[used..], window, more, k))
  }

  lemma AskingFailed(
    pending0: map<Key, Entry>, channels0: seq<Receiver>, first: nat, peer: Option<Address>, feed: seq<Tick>, clock: int,
    request: bytes, window: int, sent: map<Key, Entry>, used: nat, more: nat, k: nat)
    requires |channels0| == CHANNELS && Requested(pending0, first, peer, feed, clock, request, sent, used, false)
    ensures AttemptFails(pending0, channels0, first, peer, feed, clock, request, window, used, more, k)
  {
  }

  lemma AnsweringFailed(
    pending0: map<Key, Entry>, channels0: seq<Receiver>, first: nat, peer: Option<Address>, feed: seq<Tick>, clock: int,
    request: bytes, window: int, sent: map<Key, Entry>, used: nat, channels1: seq<Receiver>, feed1: seq<Tick>, more: nat, k: nat)
    requires |channels0| == CHANNELS && Requested(pending0, first, peer, feed, clock, request, sent, used, true)
    requires Waited(channels0, feed, used, peer, channels1, feed1)
    requires |channels1| == CHANNELS && ReadingFails(PendingUpTo(sent, peer, feed, used), channels1, peer, feed1, window, more, k)
    ensures AttemptFails(pending0, channels0, first, peer, feed, clock, request, window, used, more, k)
  {
  }

  /** At most fifteen seconds, and at most what remains. */
  function WindowOf(clock: int, remaining: int): int {
    clock + (if remaining < 15_000 then remaining else 15_000)
  }

  /** Each candidate's request asks for the status as the administrator with that candidate's password. */
  lemma StatusRequestsAre(candidates: seq<string>, k: nat)
    requires k < |candidates|
    ensures |StatusRequests(candidates)| == |candidates|
    ensures StatusRequests(candidates)[k] == MakeCgiRequest("get_status.cgi?name=admin&", "admin", candidates[k])
  {
  }

  /** Send the request, and read until the login answer or the end of the window. */
  method TryCandidate(session: CS2Session, request: bytes, remaining: int, ghost frames: seq<Command>, ghost i: nat)
    returns (r: Outcome<Option<int>>, ghost part: seq<Traffic>, ghost j: nat, ghost used: nat, ghost more: nat, ghost k: nat)
    requires session.Valid() && AllEncodable(frames)
    modifies session`outgoing, session`pending, session`trace, session`channels, session`peer, session`closed,
             session`feed, session`clock, session`taken
    ensures session.Valid() && old(session.Arrived(0)) <= session.Arrived(0) && r != TimedOut
    ensures old(session.trace) <= session.trace
    ensures r.Done? ==>
              && session.Open() && session.peer == old(session.peer)
              && Contains(session.trace, part) && IsSending(part, request, session.peer.value)
    ensures r.Failed? && old(session.Open()) && |request| >= 8 ==>
              AttemptFails(old(session.pending), old(session.channels), old(session.outgoing)[0], old(session.peer), old(session.feed),
                           old(session.clock), request, WindowOf(old(session.clock), remaining), used, more, k)
    ensures r == Done(None) ==>
              var window := WindowOf(old(session.clock), remaining);
              session.clock >= window || (|session.channels[0].buffer| < 8 && session.Late(window))
    ensures Sane(session, frames) && old(AtFrame(session, frames, i)) && r.Done? ==>
              && AtFrame(session, frames, j)
              && Responded(frames, i, j, {0x6001}, LoginAnswer(r.value))
  {
    j, more, k := i, 0, 0;
    ghost var onFrame := AtFrame(session, frames, i);
    var window := session.clock + (if remaining < CANDIDATE_MS then remaining else CANDIDATE_MS);
    var asked;
    ghost var sent;
    asked, part, sent, used := WriteCommand(session, request);
    if asked.Failed? {
      if old(session.Open()) && |request| >= 8 {
        AskingFailed(old(session.pending), old(session.channels), old(session.outgoing)[0], old(session.peer), old(session.feed),
                     old(session.clock), request, WindowOf(old(session.clock), remaining), sent, used, more, k);
      }
      return Failed, part, j, used, more, k;
    }
    assert onFrame ==> AtFrame(session, frames, i);
    assert window == WindowOf(old(session.clock), remaining);
    var answer;
    ghost var asking, channels1, feed1 := session.trace, session.channels, session.feed;
    answer, j, more, k := ReadResponse(session, {LOGIN_RESPONSE}, window, frames, i);
    if answer.Failed? {
      AnsweringFailed(old(session.pending), old(session.channels), old(session.outgoing)[0], old(session.peer), old(session.feed),
                      old(session.clock), request, WindowOf(old(session.clock), remaining), sent, used, channels1, feed1, more, k);
      return Failed, part, j, used, more, k;
    }
    ContainsStays(asking, session.trace, part);
    return Done(if answer.value.None? then None else Some(answer.value.value.1)), part, j, used, more, k;
  }

  function LoginAnswer(result: Option<int>): Option<(nat, int)> {
    if result.Some? then Some((0x6001, result.value)) else None
  }

  /** Each attempt's result is that of the first login answer between its own two boundaries, or there is none. */
  predicate AttemptsAre(frames: seq<Command>, cuts: seq<nat>, attempts: seq<Option<int>>) {
    && |cuts| == |attempts| + 1
    && forall k | 0 <= k < |attempts| :: Responded(frames, cuts[k], cuts[k + 1], {0x6001}, LoginAnswer(attempts[k]))
  }

  lemma OneMoreAttempt(frames: seq<Command>, cuts: seq<nat>, attempts: seq<Option<int>>, j: nat, result: Option<int>)
    requires AttemptsAre(frames, cuts, attempts) && Responded(frames, cuts[|attempts|], j, {0x6001}, LoginAnswer(result))
    ensures AttemptsAre(frames, cuts + [j], attempts + [result])
  {
  }

  ghost predicate AllContained(t: seq<Traffic>, parts: seq<seq<Traffic>>) {
    forall k | 0 <= k < |parts| :: Contains(t, parts[k])
  }

  lemma OneMoreContained(t: seq<Traffic>, later: seq<Traffic>, parts: seq<seq<Traffic>>, part: seq<Traffic>)
    requires AllContained(t, parts) && t <= later && Contains(later, part)
    ensures AllContained(later, parts + [part])
  {
    forall k | 0 <= k < |parts|
      ensures Contains(later, parts[k])
    {
      ContainsStays(t, later, parts[k]);
    }
  }

  /** The parts send the requests to the peer, one each. */
  ghost predicate AreSendings(parts: seq<seq<Traffic>>, requests: seq<bytes>, to: Option<Address>) {
    && |parts| == |requests|
    && forall k | 0 <= k < |parts| :: to.Some? && IsSending(parts[k], requests[k], to.value)
  }

  /** The requests are the first ones planned, in order. */
  predicate AreFirst(requests: seq<bytes>, planned: seq<Option<bytes>>) {
    && |requests| <= |planned|
    && forall k | 0 <= k < |requests| :: planned[k] == Some(requests[k])
  }

  /** So many attempts were made with the first requests planned, and none was answered with zero. */
  ghost predicate Tried(
    t: seq<Traffic>, planned: seq<Option<bytes>>, requests: seq<bytes>, parts: seq<seq<Traffic>>, to: Option<Address>,
    attempts: seq<Option<int>>)
  {
    && AllContained(t, parts) && AreSendings(parts, requests, to)
    && |requests| == |attempts| && AreFirst(requests, planned)
    && forall k | 0 <= k < |attempts| :: attempts[k] != Some(0)
  }

  lemma OneMoreTried(
    t: seq<Traffic>, later: seq<Traffic>, planned: seq<Option<bytes>>, requests: seq<bytes>, parts: seq<seq<Traffic>>,
    to: Address, attempts: seq<Option<int>>, request: bytes, part: seq<Traffic>, result: Option<int>)
    requires Tried(t, planned, requests, parts, Some(to), attempts) && t <= later
    requires |attempts| < |planned| && planned[|attempts|] == Some(request)
    requires Contains(later, part) && IsSending(part, request, to)
    ensures AllContained(later, parts + [part]) && AreSendings(parts + [part], requests + [request], Some(to))
    ensures AreFirst(requests + [request], planned)
    ensures result != Some(0) ==> Tried(later, planned, requests + [request], parts + [part], Some(to), attempts + [result])
  {
    OneMoreContained(t, later, parts, part);
  }

  /** What the outcome of a login with these planned requests means, and what was sent for it. */
  ghost predicate LoggedIn(login: Login, planned: seq<Option<bytes>>, requests: seq<bytes>) {
    && AreFirst(requests, planned)
    && (login.Accepted? ==>
          && login.candidate < |planned| && |login.attempts| == login.candidate + 1 == |requests|
          && login.attempts[login.candidate] == Some(0)
          && forall k | 0 <= k < login.candidate :: login.attempts[k] != Some(0))
    && (login.Rejected? ==>
          |requests| == |login.attempts| && forall k | 0 <= k < |login.attempts| :: login.attempts[k] != Some(0))
  }

  lemma AcceptedIsLogin(
    t: seq<Traffic>, planned: seq<Option<bytes>>, requests: seq<bytes>, parts: seq<seq<Traffic>>, to: Option<Address>,
    attempts: seq<Option<int>>, request: bytes)
    requires Tried(t, planned, requests, parts, to, attempts) && |attempts| < |planned| && planned[|attempts|] == Some(request)
    ensures LoggedIn(Accepted(|attempts|, attempts + [Some(0)]), planned, requests + [request])
  {
  }

  /** The position is on the last of the boundaries that cut the frames read into attempts. */
  ghost predicate EndsOnFrame(session: CS2Session, frames: seq<Command>, i: nat, cuts: seq<nat>, attempts: seq<Option<int>>)
    requires session.Valid() && AllEncodable(frames)
    reads session
  {
    && AttemptsAre(frames, cuts, attempts) && cuts[0] == i
    && AtFrame(session, frames, cuts[|attempts|])
  }

  lemma EndsAgain(session: CS2Session, frames: seq<Command>, i: nat, cuts: seq<nat>, attempts: seq<Option<int>>, j: nat, result: Option<int>)
    requires session.Valid() && AllEncodable(frames) && AttemptsAre(frames, cuts, attempts) && cuts[0] == i
    requires AtFrame(session, frames, j) && Responded(frames, cuts[|attempts|], j, {0x6001}, LoginAnswer(result))
    ensures EndsOnFrame(session, frames, i, cuts + [j], attempts + [result])
  {
    OneMoreAttempt(frames, cuts, attempts, j, result);
  }

  /** The session as an attempt found it. */
  datatype Start = Start(pending: map<Key, Entry>, channels: seq<Receiver>, first: nat, feed: seq<Tick>, clock: int)

  ghost function StartOf(session: CS2Session): Start
    requires session.Valid()
    reads session
  {
    Start(session.pending, session.channels, session.outgoing[0], session.feed, session.clock)
  }

  /** Behind the first `n` requests the next is none, or was made in time and failed. */
  ghost predicate BreaksOff(
    planned: seq<Option<bytes>>, n: nat, peer: Option<Address>, deadline: int, start: Start, used: nat, more: nat, k: nat)
  {
    && n < |planned|
    && match planned[n]
       case None => true
       case Some(request) =>
         && start.clock < deadline && |start.channels| == CHANNELS
         && (|request| >= 8 ==>
               AttemptFails(start.pending, start.channels, start.first, peer, start.feed, start.clock, request,
                            WindowOf(start.clock, deadline - start.clock), used, more, k))
  }

  lemma AttemptBreaksOff(
    planned: seq<Option<bytes>>, n: nat, peer: Option<Address>, deadline: int, start: Start, used: nat, more: nat, k: nat,
    request: bytes)
    requires n < |planned| && planned[n] == Some(request)
    requires start.clock < deadline && |start.channels| == CHANNELS
    requires |request| >= 8 ==>
               AttemptFails(start.pending, start.channels, start.first, peer, start.feed, start.clock, request,
                            WindowOf(start.clock, deadline - start.clock), used, more, k)
    ensures BreaksOff(planned, n, peer, deadline, start, used, more, k)
  {
  }

  lemma AllStayContained(t: seq<Traffic>, later: seq<Traffic>, parts: seq<seq<Traffic>>)
    requires AllContained(t, parts) && t <= later
    ensures AllContained(later, parts)
  {
    forall k | 0 <= k < |parts|
      ensures Contains(later, parts[k])
    {
      ContainsStays(t, later, parts[k]);
    }
  }

  /** Try the next request planned, in what remains until the deadline. */
  method TryNext(session: CS2Session, planned: seq<Option<bytes>>, n: nat, deadline: int, ghost frames: seq<Command>, ghost i: nat)
    returns (r: Outcome<Option<int>>, ghost part: seq<Traffic>, ghost j: nat, ghost start: Start, ghost used: nat, ghost more: nat, ghost k: nat)
    requires session.Valid() && AllEncodable(frames) && n < |planned| && session.clock < deadline
    modifies session`outgoing, session`pending, session`trace, session`channels, session`peer, session`closed,
             session`feed, session`clock, session`taken
    ensures session.Valid() && old(session.Arrived(0)) <= session.Arrived(0) && r != TimedOut
    ensures old(session.trace) <= session.trace && start == old(StartOf(session))
    ensures r.Failed? && old(session.Open()) ==>
              BreaksOff(planned, n, old(session.peer), deadline, start, used, more, k)
    ensures r.Done? ==>
              && session.Open() && session.peer == old(session.peer) && planned[n].Some?
              && Contains(session.trace, part) && IsSending(part, planned[n].value, session.peer.value)
    ensures Sane(session, frames) && old(AtFrame(session, frames, i)) && r.Done? ==>
              AtFrame(session, frames, j) && Responded(frames, i, j, {0x6001}, LoginAnswer(r.value))
  {
    start, part, j, used, more, k := StartOf(session), [], i, 0, 0, 0;
    var request := planned[n];
    if request.None? {
      return Failed, part, j, start, used, more, k;
    }
    r, part, j, used, more, k := TryCandidate(session, request.value, deadline - session.clock, frames, i);
    if r.Failed? && old(session.Open()) {
      AttemptBreaksOff(planned, n, old(session.peer), deadline, start, used, more, k, request.value);
    }
  }

  /** The next attempt, behind those made. */
  method TryAnother(
    session: CS2Session, planned: seq<Option<bytes>>, n: nat, deadline: int, ghost frames: seq<Command>, ghost i: nat,
    ghost requests: seq<bytes>, ghost parts: seq<seq<Traffic>>, ghost cuts: seq<nat>, ghost attempts: seq<Option<int>>)
    returns (r: Outcome<Option<int>>, ghost request: bytes, ghost part: seq<Traffic>, ghost j: nat,
             ghost start: Start, ghost used: nat, ghost more: nat, ghost k: nat)
    requires session.Valid() && AllEncodable(frames) && n < |planned| && session.clock < deadline
    requires |attempts| == n && |cuts| == n + 1 && Tried(session.trace, planned, requests, parts, session.peer, attempts)
    modifies session`outgoing, session`pending, session`trace, session`channels, session`peer, session`closed,
             session`feed, session`clock, session`taken
    ensures session.Valid() && old(session.Arrived(0)) <= session.Arrived(0) && r != TimedOut && start == old(StartOf(session))
    ensures r.Failed? ==> AllContained(session.trace, parts)
    ensures r.Failed? && old(session.Open()) ==> BreaksOff(planned, n, old(session.peer), deadline, start, used, more, k)
    ensures r.Done? ==>
              && session.Open() && session.peer == old(session.peer)
              && AllContained(session.trace, parts + [part]) && AreSendings(parts + [part], requests + [request], session.peer)
              && (if r.value == Some(0) then LoggedIn(Accepted(n, attempts + [r.value]), planned, requests + [request])
                  else Tried(session.trace, planned, requests + [request], parts + [part], session.peer, attempts + [r.value]))
    ensures Sane(session, frames) && old(EndsOnFrame(session, frames, i, cuts, attempts)) && r.Done? ==>
              EndsOnFrame(session, frames, i, cuts + [j], attempts + [r.value])
  {
    ghost var before, onFrame := session.trace, EndsOnFrame(session, frames, i, cuts, attempts);
    r, part, j, start, used, more, k := TryNext(session, planned, n, deadline, frames, cuts[n]);
    request := [];
    if r.Failed? {
      AllStayContained(before, session.trace, parts);
    } else {
      request := planned[n].value;
      AcceptedIsLogin(before, planned, requests, parts, old(session.peer), attempts, request);
      OneMoreTried(before, session.trace, planned, requests, parts, session.peer.value, attempts, request, part, r.value);
      if onFrame && Sane(session, frames) {
        EndsAgain(session, frames, i, cuts, attempts, j, r.value);
      }
    }
  }

  /**
   Try each candidate in turn. Acceptance means that the last candidate tried, and no
   earlier one, was answered with zero; each attempt sent that candidate's own request;
   every candidate starts, and the login ends, on a frame boundary. Rejection means that
   no candidate was answered with zero, and all were tried or time ran out. A login breaks
   off only because an attempt made in time failed.
   */
  method TryCandidates(session: CS2Session, planned: seq<Option<bytes>>, timeout: int, ghost frames: seq<Command>, ghost i: nat)
    returns (login: Login, ghost requests: seq<bytes>, ghost parts: seq<seq<Traffic>>, ghost cuts: seq<nat>,
             ghost start: Start, ghost used: nat, ghost more: nat, ghost k: nat)
    requires session.Valid() && AllEncodable(frames)
    modifies session`outgoing, session`pending, session`trace, session`channels, session`peer, session`closed,
             session`feed, session`clock, session`taken
    ensures session.Valid()
    ensures LoggedIn(login, planned, requests)
    ensures login.Rejected? ==> |login.attempts| == |planned| || session.clock >= old(session.clock) + timeout
    ensures login.Broken? && old(session.Open()) ==>
              BreaksOff(planned, |requests|, old(session.peer), old(session.clock) + timeout, start, used, more, k)
    ensures login.Broken? && requests == [] ==>
              start == old(StartOf(session))
    ensures AllContained(session.trace, parts) && AreSendings(parts, requests, old(session.peer))
    ensures Sane(session, frames) && old(AtFrame(session, frames, i)) && !login.Broken? ==>
              EndsOnFrame(session, frames, i, cuts, login.attempts)
  {
    cuts, requests, parts, used, more, k := [i], [], [], 0, 0, 0;
    start := StartOf(session);
    ghost var start0, peer0, open0, arrived0 := start, session.peer, session.Open(), session.Arrived(0);
    ghost var onFrame := AtFrame(session, frames, i);
    var deadline := session.clock + timeout;
    var attempts: seq<Option<int>> := [];
    for candidate := 0 to |planned|
      invariant session.Valid() && arrived0 <= session.Arrived(0)
      invariant session.peer == peer0 && |requests| == |attempts| == candidate && (open0 ==> session.Open())
      invariant candidate == 0 ==> StartOf(session) == start0
      invariant Tried(session.trace, planned, requests, parts, peer0, attempts)
      invariant |cuts| == |attempts| + 1
      invariant onFrame && Sane(session, frames) ==> EndsOnFrame(session, frames, i, cuts, attempts)
    {
      var remaining := deadline - session.clock;
      if remaining <= 0 {
        break;
      }
      var answer;
      ghost var request, part, j;
      answer, request, part, j, start, used, more, k :=
        TryAnother(session, planned, candidate, deadline, frames, i, requests, parts, cuts, attempts);
      if answer.Failed? {
        return Broken, requests, parts, cuts, start, used, more, k;
      }
      requests, parts, cuts, attempts := requests + [request], parts + [part], cuts + [j], attempts + [answer.value];
      if answer.value == Some(0) {
        return Accepted(candidate, attempts), requests, parts, cuts, start, used, more, k;
      }
    }
    return Rejected(attempts), requests, parts, cuts, start, used, more, k;
  }

  method AuthenticateCamera(session: CS2Session, password: string, timeout: int, ghost frames: seq<Command>, ghost i: nat)
    returns (login: Login, ghost requests: seq<bytes>, ghost parts: seq<seq<Traffic>>, ghost cuts: seq<nat>,
             ghost start: Start, ghost used: nat, ghost more: nat, ghost k: nat)
    requires session.Valid() && AllEncodable(frames)
    modifies session`outgoing, session`pending, session`trace, session`channels, session`peer, session`closed,
             session`feed, session`clock, session`taken
    ensures session.Valid()
    ensures LoggedIn(login, StatusRequests(LoginCandidates(password)), requests)
    ensures login.Rejected? ==>
              |login.attempts| == |LoginCandidates(password)| || session.clock >= old(session.clock) + timeout
    ensures login.Broken? && old(session.Open()) ==>
              BreaksOff(StatusRequests(LoginCandidates(password)), |requests|, old(session.peer), old(session.clock) + timeout,
                        start, used, more, k)
    ensures login.Broken? && requests == [] ==>
              start == old(StartOf(session))
    ensures AllContained(session.trace, parts) && AreSendings(parts, requests, old(session.peer))
    ensures Sane(session, frames) && old(AtFrame(session, frames, i)) && !login.Broken? ==>
              EndsOnFrame(session, frames, i, cuts, login.attempts)
  {
    login, requests, parts, cuts, start, used, more, k := TryCandidates(session, StatusRequests(LoginCandidates(password)), timeout, frames, i);
  }
}
