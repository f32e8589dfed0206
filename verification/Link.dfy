/**
 Both ends of one channel and the network between them.

 The sender's side is the list of frames it has numbered and the 16-bit numbers it still
 holds pending; the receiver's side is a `Channel.Receiver`. The network may lose, repeat
 and reorder at will: a frame or an acknowledgement, once sent, may arrive at any later
 time, any number of times, or never. `frames`, `written`, `next`, `taken` and `acked`
 are bookkeeping that neither end can see.
 */
module Link {
  import opened Octets
  import opened Channel

  datatype Link = Link(
    frames: seq<bytes>,    // every frame sent so far, by absolute index
    written: bytes,        // every byte given to `write`
    pending: set<nat>,     // 16-bit numbers sent and not acknowledged
    receiver: Receiver,
    next: nat,             // absolute index of the frame the receiver expects
    taken: bytes,          // every byte returned by `read_exact`
    acked: set<nat>)       // absolute indices the receiver has acknowledged

  const START := Link([], [], {}, FRESH, 0, [], {})

  datatype Event =
    | Send(body: bytes)
    | Deliver(k: nat)
    | Acknowledge(k: nat)
    | Take(n: nat)

  /**
   What may happen next. A frame arrives only at a harmless offset; nothing else is asked of
   the network.
   */
  predicate Timely(l: Link, e: Event) {
    match e
    case Send(_) => true
    case Deliver(k) => k < |l.frames| && Harmless(k - l.next)
    case Acknowledge(k) => k in l.acked
    case Take(n) => n <= |l.receiver.buffer|
  }

  function Step(l: Link, e: Event): Link
    requires Timely(l, e)
  {
    match e
    case Send(body) =>
      l.(frames := l.frames + [body], written := l.written + body,
         pending := l.pending + {Wrap(|l.frames|)})
    case Deliver(k) =>
      l.(receiver := Accept(l.receiver, Wrap(k), l.frames[k]),
         next := l.next + Accepted(l.receiver, Wrap(k), l.frames[k]),
         acked := l.acked + {k})
    case Acknowledge(k) => l.(pending := l.pending - {Wrap(k)})
    case Take(n) =>
      l.(taken := l.taken + l.receiver.buffer[..n],
         receiver := l.receiver.(buffer := l.receiver.buffer[n..]))
  }

  predicate TimelyRun(l: Link, es: seq<Event>)
    decreases |es|
  {
    es != [] ==> Timely(l, es[0]) && TimelyRun(Step(l, es[0]), es[1..])
  }

  function Run(l: Link, es: seq<Event>): Link
    requires TimelyRun(l, es)
    decreases |es|
  {
    if es == [] then l else Run(Step(l, es[0]), es[1..])
  }

  // ---------------------------------------------------------------------------------
  // Prefix safety

  ghost predicate Sound(l: Link) {
    && Tracks(l.receiver, l.frames, l.next, 1)
    && l.taken + l.receiver.buffer == Concat(l.frames[..l.next])
    && Concat(l.frames) == l.written
    && forall k | k in l.acked :: k < |l.frames|
  }

  lemma SendKeepsSound(l: Link, body: bytes)
    requires Sound(l)
    ensures Sound(Step(l, Send(body)))
  {
    ConcatSnoc(l.frames, body);
    assert (l.frames + [body])[..l.next] == l.frames[..l.next];
  }

  lemma ConcatExtend(frames: seq<bytes>, a: nat, b: nat)
    requires a <= b <= |frames|
    ensures Concat(frames[..a]) + Concat(frames[a..b]) == Concat(frames[..b])
  {
    assert frames[..b] == frames[..a] + frames[a..b];
    ConcatAppend(frames[..a], frames[a..b]);
  }

  lemma DeliverKeepsSound(l: Link, k: nat)
    requires Sound(l) && Timely(l, Deliver(k))
    ensures Sound(Step(l, Deliver(k)))
  {
    var to := AcceptTracks(l.receiver, l.frames, l.next, k);
    var l' := Step(l, Deliver(k));
    assert l'.next == to;
    calc {
      l'.taken + l'.receiver.buffer;
      l.taken + (l.receiver.buffer + Concat(l.frames[l.next..to]));
      { Associate(l.taken, l.receiver.buffer, Concat(l.frames[l.next..to])); }
      Concat(l.frames[..l.next]) + Concat(l.frames[l.next..to]);
      { ConcatExtend(l.frames, l.next, to); }
      Concat(l.frames[..to]);
    }
  }

  lemma TakeKeepsSound(l: Link, n: nat)
    requires Sound(l) && Timely(l, Take(n))
    ensures Sound(Step(l, Take(n)))
  {
    var b := l.receiver.buffer;
    assert b == b[..n] + b[n..];
    Associate(l.taken, b[..n], b[n..]);
  }

  lemma StepKeepsSound(l: Link, e: Event)
    requires Sound(l) && Timely(l, e)
    ensures Sound(Step(l, e))
  {
    match e
    case Send(body) => SendKeepsSound(l, body);
    case Deliver(k) => DeliverKeepsSound(l, k);
    case Acknowledge(_) =>
    case Take(n) => TakeKeepsSound(l, n);
  }

  lemma {:induction false} RunKeepsSound(l: Link, es: seq<Event>)
    requires Sound(l) && TimelyRun(l, es)
    ensures Sound(Run(l, es))
    decreases |es|
  {
    if es != [] {
      StepKeepsSound(l, es[0]);
      RunKeepsSound(Step(l, es[0]), es[1..]);
    }
  }

  /**
   Prefix safety, end to end: after any loss, repetition and reordering, and through any
   number of wraps of the 16-bit numbers, what the reader has taken followed by what
   waits for it is a prefix of what was written, and at most 64 frames are held back.
   */
  lemma ReaderSeesPrefix(es: seq<Event>)
    requires TimelyRun(START, es)
    ensures var l := Run(START, es);
            l.taken + l.receiver.buffer <= l.written && |l.receiver.held| <= REORDER_LIMIT
  {
    RunKeepsSound(START, es);
    var l := Run(START, es);
    ConcatPrefix(l.frames, l.next);
  }

  // ---------------------------------------------------------------------------------
  // An acknowledged write is a delivered write, for at most 65 chunks

  /** Every frame has been appended and nothing is held. */
  predicate Settled(l: Link) {
    l.next == |l.frames| && l.receiver.held == map[]
  }

  /** The loop condition of `write` is false for the frames sent since `base`. */
  ghost predicate Returned(l: Link, base: nat) {
    forall k: nat | base <= k < |l.frames| :: Wrap(k) !in l.pending
  }

  function Sends(es: seq<Event>): nat {
    if es == [] then 0 else (if es[0].Send? then 1 else 0) + Sends(es[1..])
  }

  lemma {:induction false} RunSnoc(l: Link, es: seq<Event>, e: Event)
    requires TimelyRun(l, es) && Timely(Run(l, es), e)
    ensures TimelyRun(l, es + [e]) && Run(l, es + [e]) == Step(Run(l, es), e)
    ensures Sends(es + [e]) == Sends(es) + (if e.Send? then 1 else 0)
    decreases |es|
  {
    if es == [] {
      assert (es + [e])[1..] == [];
      assert TimelyRun(Step(l, e), []);
    } else {
      assert (es + [e])[1..] == es[1..] + [e];
      RunSnoc(Step(l, es[0]), es[1..], e);
    }
  }

  lemma {:induction false} RunAppend(l: Link, a: seq<Event>, b: seq<Event>)
    requires TimelyRun(l, a) && TimelyRun(Run(l, a), b)
    ensures TimelyRun(l, a + b) && Run(l, a + b) == Run(Run(l, a), b)
    ensures Sends(a + b) == Sends(a) + Sends(b)
    decreases |a|
  {
    if a == [] {
      assert a + b == b;
    } else {
      assert (a + b)[1..] == a[1..] + b;
      RunAppend(Step(l, a[0]), a[1..], b);
    }
  }

  /** Since `base`: what left `pending` was acknowledged, and what was acknowledged is covered. */
  ghost predicate InRound(l: Link, base: nat) {
    && Sound(l) && base <= l.next
    && (forall k: nat | k in l.acked && base <= k :: Covered(l.receiver, l.next, k))
    && (forall k: nat | base <= k < |l.frames| && Wrap(k) !in l.pending :: k in l.acked)
  }

  lemma SendKeepsRound(l: Link, base: nat, body: bytes)
    requires InRound(l, base)
    ensures InRound(Step(l, Send(body)), base)
  {
    SendKeepsSound(l, body);
  }

  lemma DeliverCovers(l: Link, k: nat, j: nat)
    requires Sound(l) && Timely(l, Deliver(k)) && |l.frames| <= l.next + ROUND_LIMIT
    requires j < |l.frames| && (j == k || Covered(l.receiver, l.next, j))
    ensures var l' := Step(l, Deliver(k)); Covered(l'.receiver, l'.next, j)
  {
    AcceptCovers(l.receiver, l.frames, l.next, k, j);
  }

  lemma DeliverKeepsRound(l: Link, base: nat, k: nat)
    requires InRound(l, base) && Timely(l, Deliver(k)) && |l.frames| <= base + ROUND_LIMIT
    ensures InRound(Step(l, Deliver(k)), base)
  {
    var l' := Step(l, Deliver(k));
    assert Sound(l') by {
      DeliverKeepsSound(l, k);
    }
    forall j: nat | j in l'.acked && base <= j
      ensures Covered(l'.receiver, l'.next, j)
    {
      DeliverCovers(l, k, j);
    }
  }

  lemma SameNumber(j: nat, k: nat, limit: nat)
    requires Wrap(j) == Wrap(k) && j < limit <= j + 0x1_0000 && k < limit <= k + 0x1_0000
    ensures j == k
  {
  }

  /**
   An acknowledgement of frame `k` is prompt if no later one of the frames from `base` up to
   `n` has its number.
   */
  predicate Prompt(base: nat, n: nat, k: nat) {
    forall j: nat | base <= j < n && Wrap(j) == Wrap(k) :: j <= k
  }

  /** An acknowledgement is prompt unless its number has been used again. */
  lemma RecentIsPrompt(base: nat, n: nat, k: nat)
    requires n <= k + 0x1_0000
    ensures Prompt(base, n, k)
  {
    forall j: nat | base <= j < n && Wrap(j) == Wrap(k)
      ensures j <= k
    {
      if k < j {
        SameNumber(j, k, n);
      }
    }
  }

  predicate PromptRun(l: Link, base: nat, es: seq<Event>)
    requires TimelyRun(l, es)
    decreases |es|
  {
    es != [] ==>
      && (es[0].Acknowledge? ==> Prompt(base, |l.frames|, es[0].k))
      && PromptRun(Step(l, es[0]), base, es[1..])
  }

  lemma {:induction false} PromptAppend(l: Link, base: nat, a: seq<Event>, b: seq<Event>)
    requires TimelyRun(l, a) && TimelyRun(Run(l, a), b) && PromptRun(l, base, a) && PromptRun(Run(l, a), base, b)
    ensures TimelyRun(l, a + b) && PromptRun(l, base, a + b)
    decreases |a|
  {
    RunAppend(l, a, b);
    if a == [] {
      assert a + b == b;
    } else {
      assert (a + b)[1..] == a[1..] + b;
      PromptAppend(Step(l, a[0]), base, a[1..], b);
    }
  }

  lemma {:induction false} PromptSnoc(l: Link, base: nat, es: seq<Event>, e: Event)
    requires TimelyRun(l, es) && Timely(Run(l, es), e) && PromptRun(l, base, es)
    requires e.Acknowledge? ==> Prompt(base, |Run(l, es).frames|, e.k)
    ensures TimelyRun(l, es + [e]) && PromptRun(l, base, es + [e])
    decreases |es|
  {
    RunSnoc(l, es, e);
    if es == [] {
      assert (es + [e])[1..] == [];
      assert PromptRun(Step(l, e), base, []);
    } else {
      assert (es + [e])[1..] == es[1..] + [e];
      PromptSnoc(Step(l, es[0]), base, es[1..], e);
    }
  }

  lemma AcknowledgeKeepsRound(l: Link, base: nat, k: nat)
    requires InRound(l, base) && Timely(l, Acknowledge(k)) && |l.frames| <= base + ROUND_LIMIT
    requires Prompt(base, |l.frames|, k)
    ensures InRound(Step(l, Acknowledge(k)), base)
  {
    var l' := Step(l, Acknowledge(k));
    forall j: nat | base <= j < |l'.frames| && Wrap(j) !in l'.pending
      ensures j in l'.acked
    {
      if Wrap(j) in l.pending {
        SameNumber(j, k, |l.frames|);
      }
    }
  }

  /** A link in which frame `k` was acknowledged and none of the frames from `base` up to `n` has arrived. */
  function Waiting(base: nat, n: nat, k: nat): Link
    requires base <= n
  {
    var frames: seq<bytes> := seq(n, i => [1]);
    Link(frames, Concat(frames), Numbers(base, n), Receiver(Wrap(base), Concat(frames[..base]), map[]), base, [], {k})
  }

  /** A late acknowledgement takes a later frame for acknowledged that is not. */
  lemma LateAcknowledgement(base: nat, n: nat, k: nat)
    requires base <= n <= base + ROUND_LIMIT && k < n && !Prompt(base, n, k)
    ensures var l := Waiting(base, n, k);
            && InRound(l, base) && |l.frames| == n && k in l.acked
            && !InRound(Step(l, Acknowledge(k)), base)
  {
    var j: nat :| base <= j < n && Wrap(j) == Wrap(k) && k < j;
    var l := Waiting(base, n, k);
    if base <= k {
      SameNumber(j, k, n);
    }
    assert [] + l.receiver.buffer == Concat(l.frames[..l.next]);
    assert InRound(l, base);
    var l' := Step(l, Acknowledge(k));
    assert Wrap(j) !in l'.pending && j !in l'.acked;
  }

  /**
   Exactly the prompt acknowledgements are safe: one keeps every round in which what left the
   pending set was acknowledged if and only if it is prompt.
   */
  lemma PromptIsExact(base: nat, n: nat, k: nat)
    requires base <= n <= base + ROUND_LIMIT && k < n
    ensures Prompt(base, n, k) <==>
            forall l | InRound(l, base) && |l.frames| == n && k in l.acked :: InRound(Step(l, Acknowledge(k)), base)
  {
    if Prompt(base, n, k) {
      forall l | InRound(l, base) && |l.frames| == n && k in l.acked
        ensures InRound(Step(l, Acknowledge(k)), base)
      {
        AcknowledgeKeepsRound(l, base, k);
      }
    } else {
      LateAcknowledgement(base, n, k);
    }
  }

  lemma StepKeepsRound(l: Link, base: nat, e: Event)
    requires InRound(l, base) && Timely(l, e) && |l.frames| <= base + ROUND_LIMIT
    requires e.Acknowledge? ==> Prompt(base, |l.frames|, e.k)
    ensures InRound(Step(l, e), base)
  {
    match e
    case Send(body) => SendKeepsRound(l, base, body);
    case Deliver(k) => DeliverKeepsRound(l, base, k);
    case Acknowledge(k) => AcknowledgeKeepsRound(l, base, k);
    case Take(n) => TakeKeepsSound(l, n);
  }

  lemma {:induction false} RunKeepsRound(l: Link, base: nat, es: seq<Event>)
    requires InRound(l, base) && TimelyRun(l, es) && PromptRun(l, base, es)
    requires |l.frames| + Sends(es) <= base + ROUND_LIMIT
    ensures InRound(Run(l, es), base)
    ensures |Run(l, es).frames| == |l.frames| + Sends(es)
    decreases |es|
  {
    if es != [] {
      StepKeepsRound(l, base, es[0]);
      RunKeepsRound(Step(l, es[0]), base, es[1..]);
    }
  }

  lemma NoNewFrames(l: Link)
    requires Sound(l) && Settled(l)
    ensures InRound(l, |l.frames|)
  {
  }

  /** A write of at most 65 chunks, promptly acknowledged, that returns has delivered every byte, in order. */
  lemma ReturnedIsDelivered(l: Link, es: seq<Event>)
    requires Sound(l) && Settled(l) && TimelyRun(l, es) && Sends(es) <= ROUND_LIMIT
    requires PromptRun(l, |l.frames|, es) && Returned(Run(l, es), |l.frames|)
    ensures var l' := Run(l, es);
            Sound(l') && Settled(l') && l'.taken + l'.receiver.buffer == l'.written
  {
    var l' := Run(l, es);
    NoNewFrames(l);
    RunKeepsRound(l, |l.frames|, es);
    AllCovered(l'.receiver, l'.frames, l'.next);
    assert l'.frames[..l'.next] == l'.frames;
  }

  /** A sequence of writes, each of at most 65 chunks and each returning before the next. */
  ghost predicate ReturningWrites(l: Link, writes: seq<seq<Event>>)
    decreases |writes|
  {
    writes != [] ==>
      && TimelyRun(l, writes[0]) && Sends(writes[0]) <= ROUND_LIMIT
      && PromptRun(l, |l.frames|, writes[0]) && Returned(Run(l, writes[0]), |l.frames|)
      && ReturningWrites(Run(l, writes[0]), writes[1..])
  }

  ghost function AfterWrites(l: Link, writes: seq<seq<Event>>): Link
    requires ReturningWrites(l, writes)
    decreases |writes|
  {
    if writes == [] then l else AfterWrites(Run(l, writes[0]), writes[1..])
  }

  lemma {:induction false} WritesAreDelivered(l: Link, writes: seq<seq<Event>>)
    requires Sound(l) && Settled(l) && ReturningWrites(l, writes)
    ensures var l' := AfterWrites(l, writes);
            Sound(l') && Settled(l') && l'.taken + l'.receiver.buffer == l'.written
    decreases |writes|
  {
    if writes == [] {
      assert l.frames[..l.next] == l.frames;
    } else {
      ReturnedIsDelivered(l, writes[0]);
      WritesAreDelivered(Run(l, writes[0]), writes[1..]);
    }
  }
}
