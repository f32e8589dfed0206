/**
 Retransmission of unacknowledged frames, over every run of sends, passes over the pending
 map, acknowledgements and clock advances. Times are whole milliseconds of a clock that
 never goes back. `owner`, `keyOf`, `history` and `fate` are bookkeeping: each frame sent
 gets an identity, the times at which it went out, and what became of it.
 */
module Retransmission {
  import opened Octets
  import Channel

  const RETRANSMIT_MS: int := 500
  const MAX_RETRANSMITS: nat := 20

  /** A channel and a 16-bit sequence number. */
  type Key = (nat, nat)

  datatype Entry = Entry(packet: bytes, sentAt: int, attempts: nat)

  predicate Due(e: Entry, now: int) {
    now - e.sentAt >= RETRANSMIT_MS
  }

  function Resent(e: Entry, now: int): Entry {
    e.(sentAt := now, attempts := e.attempts + 1)
  }

  /**
   The possible outcomes of one pass over `pending` in whatever order the map yields its
   keys. Without an exhausted entry, exactly the due ones are sent again. An exhausted
   entry is removed and ends the pass, so any of the other due ones may or may not have
   been reached before it.
   */
  ghost predicate PassOutcome(pending: map<Key, Entry>, now: int, after: map<Key, Entry>, exhausted: Option<Key>) {
    match exhausted
    case None =>
      && after.Keys == pending.Keys
      && forall k | k in pending ::
           if Due(pending[k], now)
           then pending[k].attempts < MAX_RETRANSMITS && after[k] == Resent(pending[k], now)
           else after[k] == pending[k]
    case Some(x) =>
      && x in pending && Due(pending[x], now) && pending[x].attempts >= MAX_RETRANSMITS
      && after.Keys == pending.Keys - {x}
      && forall k | k in after ::
           || after[k] == pending[k]
           || (Due(pending[k], now) && pending[k].attempts < MAX_RETRANSMITS && after[k] == Resent(pending[k], now))
  }

  datatype Fate = InFlight | Acknowledged | Exhausted | Replaced

  datatype Sender = Sender(
    now: int,
    pending: map<Key, Entry>,
    owner: map<Key, nat>,
    keyOf: seq<Key>,
    history: seq<seq<int>>,
    fate: seq<Fate>)

  datatype Event =
    | Advance(ms: nat)
    | SendFrame(key: Key, packet: bytes)
    | Acknowledge(keys: set<Key>)
    | Pass(after: map<Key, Entry>, exhausted: Option<Key>)

  ghost predicate Enabled(s: Sender, e: Event) {
    e.Pass? ==> PassOutcome(s.pending, s.now, e.after, e.exhausted)
  }

  /** The frame is the one its key's pending entry belongs to. */
  ghost predicate Owns(s: Sender, id: nat, keys: map<Key, Entry>)
    requires id < |s.keyOf|
  {
    var k := s.keyOf[id];
    k in keys && k in s.owner && s.owner[k] == id
  }

  ghost predicate Shaped(s: Sender) {
    |s.keyOf| == |s.history| == |s.fate|
  }

  ghost function Step(s: Sender, e: Event): Sender
    requires Shaped(s) && Enabled(s, e)
    ensures Shaped(Step(s, e))
  {
    match e
    case Advance(ms) => s.(now := s.now + ms)
    case SendFrame(key, packet) =>
      s.(pending := s.pending[key := Entry(packet, s.now, 1)],
         owner := s.owner[key := |s.history|],
         keyOf := s.keyOf + [key],
         history := s.history + [[s.now]],
         fate := seq(|s.fate|, id requires 0 <= id < |s.fate| =>
                   if s.fate[id] == InFlight && s.keyOf[id] == key then Replaced else s.fate[id]) + [InFlight])
    case Acknowledge(keys) =>
      s.(pending := s.pending - keys,
         fate := seq(|s.fate|, id requires 0 <= id < |s.fate| =>
                   if s.fate[id] == InFlight && s.keyOf[id] in keys then Acknowledged else s.fate[id]))
    case Pass(after, exhausted) =>
      s.(pending := after,
         history := seq(|s.history|, id requires 0 <= id < |s.history| =>
                      if Owns(s, id, s.pending) && Owns(s, id, after) && after[s.keyOf[id]] != s.pending[s.keyOf[id]]
                      then s.history[id] + [s.now] else s.history[id]),
         fate := seq(|s.fate|, id requires 0 <= id < |s.fate| =>
                   if s.fate[id] == InFlight && exhausted == Some(s.keyOf[id]) then Exhausted else s.fate[id]))
  }

  /** Sent at least once, at most 20 times, at least half a second apart, never in the future. */
  ghost predicate WellSpaced(times: seq<int>, now: int) {
    && 1 <= |times| <= MAX_RETRANSMITS
    && times[|times| - 1] <= now
    && forall i | 0 < i < |times| :: times[i] - times[i - 1] >= RETRANSMIT_MS
  }

  ghost predicate FrameSound(s: Sender, id: nat)
    requires Shaped(s) && id < |s.history|
  {
    && WellSpaced(s.history[id], s.now)
    && (s.fate[id] == InFlight <==> Owns(s, id, s.pending))
    && (s.fate[id] == InFlight ==>
         var e, times := s.pending[s.keyOf[id]], s.history[id];
         e.attempts == |times| && e.sentAt == times[|times| - 1])
  }

  ghost predicate KeySound(s: Sender, k: Key)
    requires Shaped(s)
  {
    k in s.owner && s.owner[k] < |s.keyOf| && s.keyOf[s.owner[k]] == k
  }

  ghost predicate Sound(s: Sender) {
    && Shaped(s)
    && (forall id: nat | id < |s.history| :: FrameSound(s, id))
    && (forall k | k in s.pending :: KeySound(s, k))
  }

  lemma PassKeepsFrame(s: Sender, e: Event, id: nat)
    requires Sound(s) && e.Pass? && Enabled(s, e) && id < |s.history|
    ensures FrameSound(Step(s, e), id)
  {
    assert FrameSound(s, id);
  }

  lemma OtherStepsKeepFrame(s: Sender, e: Event, id: nat)
    requires Sound(s) && !e.Pass? && id < |Step(s, e).history|
    ensures FrameSound(Step(s, e), id)
  {
    if id < |s.history| {
      assert FrameSound(s, id);
    }
  }

  lemma StepKeepsFrame(s: Sender, e: Event, id: nat)
    requires Sound(s) && Enabled(s, e) && id < |Step(s, e).history|
    ensures FrameSound(Step(s, e), id)
  {
    if e.Pass? {
      PassKeepsFrame(s, e, id);
    } else {
      OtherStepsKeepFrame(s, e, id);
    }
  }

  lemma StepKeepsSound(s: Sender, e: Event)
    requires Sound(s) && Enabled(s, e)
    ensures Sound(Step(s, e))
  {
    var s' := Step(s, e);
    forall id: nat | id < |s'.history|
      ensures FrameSound(s', id)
    {
      StepKeepsFrame(s, e, id);
    }
    forall k | k in s'.pending
      ensures KeySound(s', k)
    {
    }
  }

  ghost predicate IsRun(s: Sender, es: seq<Event>)
    requires Shaped(s)
    decreases |es|
  {
    es != [] ==> Enabled(s, es[0]) && IsRun(Step(s, es[0]), es[1..])
  }

  ghost function Run(s: Sender, es: seq<Event>): Sender
    requires Shaped(s) && IsRun(s, es)
    ensures Shaped(Run(s, es))
    decreases |es|
  {
    if es == [] then s else Run(Step(s, es[0]), es[1..])
  }

  lemma {:induction false} RunKeepsSound(s: Sender, es: seq<Event>)
    requires Sound(s) && IsRun(s, es)
    ensures Sound(Run(s, es))
    decreases |es|
  {
    if es != [] {
      StepKeepsSound(s, es[0]);
      RunKeepsSound(Step(s, es[0]), es[1..]);
    }
  }

  function Idle(now: int): Sender {
    Sender(now, map[], map[], [], [], [])
  }

  lemma {:induction false} SpanOf(times: seq<int>, now: int, i: nat)
    requires WellSpaced(times, now) && i < |times|
    ensures times[i] - times[0] >= RETRANSMIT_MS * i
  {
    if i > 0 {
      SpanOf(times, now, i - 1);
    }
  }

  /**
   Over every run: each frame went out at most 20 times, at least half a second apart, and
   a pass reports exhaustion no earlier than ten seconds after the frame first went out.
   */
  lemma TransmissionsAreBounded(start: int, es: seq<Event>)
    requires IsRun(Idle(start), es)
    ensures var s := Run(Idle(start), es);
            && (forall id: nat | id < |s.history| :: WellSpaced(s.history[id], s.now))
            && (forall after, x | PassOutcome(s.pending, s.now, after, Some(x)) ::
                  && x in s.owner && s.owner[x] < |s.history|
                  && |s.history[s.owner[x]]| == MAX_RETRANSMITS
                  && s.now - s.history[s.owner[x]][0] >= 10_000)
  {
    RunKeepsSound(Idle(start), es);
    var s := Run(Idle(start), es);
    forall id: nat | id < |s.history|
      ensures WellSpaced(s.history[id], s.now)
    {
      assert FrameSound(s, id);
    }
    forall after, x | PassOutcome(s.pending, s.now, after, Some(x))
      ensures && x in s.owner && s.owner[x] < |s.history|
              && |s.history[s.owner[x]]| == MAX_RETRANSMITS
              && s.now - s.history[s.owner[x]][0] >= 10_000
    {
      assert KeySound(s, x);
      var id := s.owner[x];
      assert FrameSound(s, id) && Owns(s, id, s.pending);
      SpanOf(s.history[id], s.now, MAX_RETRANSMITS - 1);
    }
  }

  /** No pass fails, and no key of a frame sent since `base` is used a second time. */
  ghost predicate Undisturbed(s: Sender, base: nat, es: seq<Event>)
    requires Shaped(s) && IsRun(s, es)
    decreases |es|
  {
    es != [] ==>
      && (es[0].Pass? ==> es[0].exhausted == None)
      && (es[0].SendFrame? ==> forall id: nat | base <= id < |s.keyOf| :: s.keyOf[id] != es[0].key)
      && Undisturbed(Step(s, es[0]), base, es[1..])
  }

  ghost predicate OnlyAcknowledged(s: Sender, base: nat)
    requires Shaped(s)
  {
    forall id: nat | base <= id < |s.fate| :: s.fate[id] == InFlight || s.fate[id] == Acknowledged
  }

  ghost predicate RemovedAcknowledged(s: Sender, base: nat)
    requires Shaped(s)
  {
    forall id: nat | base <= id < |s.fate| && s.keyOf[id] !in s.pending :: s.fate[id] == Acknowledged
  }

  /** What leaves the pending map of an undisturbed `write` was acknowledged. */
  lemma {:induction false} RemovedWasAcknowledged(s: Sender, base: nat, es: seq<Event>)
    requires Sound(s) && IsRun(s, es) && Undisturbed(s, base, es) && OnlyAcknowledged(s, base)
    ensures RemovedAcknowledged(Run(s, es), base)
    decreases |es|
  {
    if es == [] {
      forall id: nat | base <= id < |s.fate| && s.keyOf[id] !in s.pending
        ensures s.fate[id] == Acknowledged
      {
        assert FrameSound(s, id);
      }
    } else {
      StepKeepsSound(s, es[0]);
      RemovedWasAcknowledged(Step(s, es[0]), base, es[1..]);
    }
  }

  // ---------------------------------------------------------------------------------
  // One write

  function Number(k: nat): nat {
    Channel.Wrap(k)
  }

  /**
   What happens during a `write` that returns: the chunks from `i` up to `n` are sent under
   consecutive numbers, no pass fails, and acknowledgements and time come as they may.
   */
  ghost predicate IsWrite(s: Sender, channel: nat, first: nat, i: nat, n: nat, es: seq<Event>)
    requires Shaped(s) && IsRun(s, es)
    decreases |es|
  {
    if es == [] then i == n
    else
      && (es[0].Pass? ==> es[0].exhausted == None)
      && (es[0].SendFrame? ==> i < n && es[0].key == (channel, Number(first + i)))
      && IsWrite(Step(s, es[0]), channel, first, if es[0].SendFrame? then i + 1 else i, n, es[1..])
  }

  /** The frames sent since `base` are the first `i` of the write. */
  ghost predicate Numbered(s: Sender, base: nat, channel: nat, first: nat, i: nat) {
    |s.keyOf| == base + i && forall id | base <= id < |s.keyOf| :: s.keyOf[id] == (channel, Number(first + (id - base)))
  }

  /** A write of at most 65536 chunks uses no key twice. */
  lemma {:induction false} WriteIsUndisturbed(
    s: Sender, base: nat, channel: nat, first: nat, i: nat, n: nat, es: seq<Event>)
    requires Shaped(s) && IsRun(s, es) && IsWrite(s, channel, first, i, n, es)
    requires Numbered(s, base, channel, first, i) && n <= 0x1_0000
    ensures Undisturbed(s, base, es)
    decreases |es|
  {
    if es != [] {
      if es[0].SendFrame? {
        forall id: nat | base <= id < |s.keyOf|
          ensures s.keyOf[id] != es[0].key
        {
        }
        WriteIsUndisturbed(Step(s, es[0]), base, channel, first, i + 1, n, es[1..]);
      } else {
        WriteIsUndisturbed(Step(s, es[0]), base, channel, first, i, n, es[1..]);
      }
    }
  }

  /** In every write of `n` chunks that returns, each frame no longer pending was acknowledged. */
  ghost predicate AlwaysAcknowledged(n: nat) {
    forall s, channel, first, es |
      Sound(s) && IsRun(s, es) && IsWrite(s, channel, first, 0, n, es) :: RemovedAcknowledged(Run(s, es), |s.history|)
  }

  /** The first frame's key was used again, and then acknowledged. */
  lemma {:induction false} SendAll(s: Sender, i: nat, n: nat) returns (es: seq<Event>)
    requires Shaped(s) && |s.keyOf| == i <= n && 0x1_0000 < n
    requires i > 0 ==> s.keyOf[0] == (0, 0) && s.fate[0] == if i <= 0x1_0000 then InFlight else Replaced
    ensures IsRun(s, es) && IsWrite(s, 0, 0, i, n, es) && !RemovedAcknowledged(Run(s, es), 0)
    decreases n - i
  {
    if i == n {
      es := [Acknowledge({(0, 0)})];
      var t := Step(s, es[0]);
      assert es[1..] == [];
      assert IsRun(t, []) && Run(t, []) == t && IsWrite(t, 0, 0, i, n, []);
      assert t.fate[0] == Replaced && t.keyOf[0] !in t.pending;
    } else {
      var e := SendFrame((0, Number(i)), []);
      var rest := SendAll(Step(s, e), i + 1, n);
      es := [e] + rest;
      assert es[1..] == rest;
    }
  }

  /**
   A `write` that returns has had each of its frames acknowledged, in every run, if and only
   if it has at most 65536 chunks.
   */
  lemma WriteAcknowledgedIsExact(n: nat)
    ensures AlwaysAcknowledged(n) <==> n <= 0x1_0000
  {
    if n <= 0x1_0000 {
      forall s, channel, first, es | Sound(s) && IsRun(s, es) && IsWrite(s, channel, first, 0, n, es)
        ensures RemovedAcknowledged(Run(s, es), |s.history|)
      {
        WriteIsUndisturbed(s, |s.history|, channel, first, 0, n, es);
        RemovedWasAcknowledged(s, |s.history|, es);
      }
    } else {
      var es := SendAll(Idle(0), 0, n);
      assert Sound(Idle(0));
    }
  }
}
