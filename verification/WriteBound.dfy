/**
 The bound of 65 chunks in `Link.ReturnedIsDelivered` is exact: with 66 or more, the frame
 that finds the reorder buffer full has already been acknowledged, and is discarded.
 */
module WriteBound {
  import opened Channel
  import opened Link

  /** A run from the start whose acknowledgements are prompt for a write that begins there. */
  predicate Going(es: seq<Event>) {
    TimelyRun(START, es) && PromptRun(START, 0, es)
  }

  lemma Then(es: seq<Event>, e: Event)
    requires Going(es) && Timely(Run(START, es), e)
    requires e.Acknowledge? ==> Prompt(0, |Run(START, es).frames|, e.k)
    ensures Going(es + [e]) && Run(START, es + [e]) == Step(Run(START, es), e)
    ensures Sends(es + [e]) == Sends(es) + (if e.Send? then 1 else 0)
  {
    RunSnoc(START, es, e);
    PromptSnoc(START, 0, es, e);
  }

  /** `n` frames sent, none delivered. */
  lemma SendFrames(n: nat) returns (es: seq<Event>)
    ensures Going(es) && Sends(es) == n
    ensures var l := Run(START, es); |l.frames| == n && l.next == 0 && l.receiver == FRESH
  {
    es := [];
    for i := 0 to n
      invariant Going(es) && Sends(es) == i
      invariant var l := Run(START, es); |l.frames| == i && l.next == 0 && l.receiver == FRESH
    {
      Then(es, Send([1]));
      es := es + [Send([1])];
    }
  }

  /** The first `i` of `n` frames have arrived, in order. */
  ghost predicate Streamed(l: Link, n: nat, i: nat) {
    && i <= |l.frames| == n && l.next == i && l.receiver.expected == Wrap(i) && l.receiver.held == map[]
    && forall j: nat | j < i :: j in l.acked
  }

  lemma DeliverInOrder(es0: seq<Event>, n: nat, m: nat) returns (es: seq<Event>)
    requires Going(es0) && m <= n && Streamed(Run(START, es0), n, 0)
    ensures Going(es) && Sends(es) == Sends(es0) && Streamed(Run(START, es), n, m)
  {
    es := es0;
    for i := 0 to m
      invariant Going(es) && Sends(es) == Sends(es0) && Streamed(Run(START, es), n, i)
    {
      Then(es, Deliver(i));
      es := es + [Deliver(i)];
    }
  }

  /**
   Of the last 66 frames, from `m` on, the first is yet to come and those up to the `k`-th
   have arrived; 64 of them at most are held.
   */
  ghost predicate Flooded(l: Link, m: nat, k: nat) {
    && |l.frames| == m + 66 && l.next == m && l.receiver.expected == Wrap(m)
    && |l.receiver.held| == (if k < 65 then k else 65) - 1
    && (forall s | s in l.receiver.held ::
          s < MODULUS && 1 <= Distance(s, l.receiver.expected) < (if k < 65 then k else 65))
    && forall j: nat | j < m + k && j != m :: j in l.acked
  }

  lemma FloodStep(l: Link, m: nat, k: nat)
    requires 1 <= k < 66 && Flooded(l, m, k)
    ensures Timely(l, Deliver(m + k)) && Flooded(Step(l, Deliver(m + k)), m, k + 1)
  {
    DistanceAhead(m + k, m);
    CircleIsModular(0, 0, m, m + k);
    assert Distance(Wrap(m), Wrap(m)) == 0;
    assert Wrap(m + k) !in l.receiver.held;
  }

  lemma Flood(es0: seq<Event>, m: nat) returns (es: seq<Event>)
    requires Going(es0) && Flooded(Run(START, es0), m, 1)
    ensures Going(es) && Sends(es) == Sends(es0) && Flooded(Run(START, es), m, 66)
  {
    es := es0;
    for k := 1 to 66
      invariant Going(es) && Sends(es) == Sends(es0) && Flooded(Run(START, es), m, k)
    {
      FloodStep(Run(START, es), m, k);
      Then(es, Deliver(m + k));
      es := es + [Deliver(m + k)];
    }
  }

  /** Draining cannot get further than the held frames reach. */
  lemma {:induction false} DrainStopsAtGap(r: Receiver, gap: nat)
    requires r.expected < MODULUS
    requires forall s | s in r.held :: s < MODULUS && Distance(s, r.expected) < gap
    ensures Drained(r) <= gap
    decreases |r.held|
  {
    if r.expected in r.held {
      var next := ReleaseExpected(r);
      forall s | s in next.held
        ensures s < MODULUS && Distance(s, next.expected) < gap - 1
      {
        assert s in r.held && s != r.expected;
      }
      DrainStopsAtGap(next, gap - 1);
    }
  }

  lemma FirstFrameLast(l: Link, m: nat)
    requires Flooded(l, m, 66)
    ensures Timely(l, Deliver(m))
    ensures var l' := Step(l, Deliver(m));
            l'.frames == l.frames && l'.next <= m + 65 && forall j: nat | j < m + 66 :: j in l'.acked
  {
    CircleIsModular(0, 0, m, m);
    var a := AppendExpected(l.receiver, l.frames[m]);
    forall s | s in a.held
      ensures s < MODULUS && Distance(s, a.expected) < 64
    {
      assert s in l.receiver.held;
    }
    DrainStopsAtGap(a, 64);
  }

  /** The first frame whose number has not been used again. */
  function Oldest(n: nat): nat {
    if n <= 0x1_0000 then 0 else n - 0x1_0000
  }

  lemma EveryNumberIsRecent(j: nat, n: nat) returns (k: nat)
    requires j < n
    ensures Oldest(n) <= k < n && Wrap(k) == Wrap(j)
  {
    k := if j < Oldest(n) then Oldest(n) + (j - Oldest(n)) % 0x1_0000 else j;
  }

  lemma AcknowledgeAll(es0: seq<Event>, n: nat) returns (es: seq<Event>)
    requires Going(es0)
    requires var l := Run(START, es0); |l.frames| == n && forall j: nat | j < n :: j in l.acked
    ensures Going(es) && Sends(es) == Sends(es0) && Returned(Run(START, es), 0)
    ensures Run(START, es) == Run(START, es0).(pending := Run(START, es).pending)
  {
    es := es0;
    for k := Oldest(n) to n
      invariant Going(es) && Sends(es) == Sends(es0)
      invariant Run(START, es) == Run(START, es0).(pending := Run(START, es).pending)
      invariant forall j: nat | Oldest(n) <= j < k :: Wrap(j) !in Run(START, es).pending
    {
      RecentIsPrompt(0, n, k);
      Then(es, Acknowledge(k));
      es := es + [Acknowledge(k)];
    }
    forall j: nat | j < n
      ensures Wrap(j) !in Run(START, es).pending
    {
      var k := EveryNumberIsRecent(j, n);
    }
  }

  /** A run in which `write` returns although a frame of it was neither appended nor is held. */
  lemma OverflowRun(n: nat) returns (es: seq<Event>)
    requires 66 <= n
    ensures Going(es) && Sends(es) == n
    ensures Returned(Run(START, es), 0) && Run(START, es).next < |Run(START, es).frames|
  {
    var m := n - 66;
    es := SendFrames(n);
    es := DeliverInOrder(es, n, m);
    es := Flood(es, m);
    FirstFrameLast(Run(START, es), m);
    Then(es, Deliver(m));
    es := AcknowledgeAll(es + [Deliver(m)], n);
  }

  /** In every promptly acknowledged run of `n` chunks on a settled channel, returning means delivered. */
  ghost predicate AlwaysDelivers(n: nat) {
    forall l, es | Sound(l) && Settled(l) && TimelyRun(l, es) && PromptRun(l, |l.frames|, es) && Sends(es) == n
                   && Returned(Run(l, es), |l.frames|) :: Settled(Run(l, es))
  }

  /**
   With prompt acknowledgements, a `write` that returns is always a `write` that was delivered
   if and only if it has at most 65 chunks.
   */
  lemma WriteBoundIsExact(n: nat)
    ensures AlwaysDelivers(n) <==> n <= ROUND_LIMIT
  {
    if n <= ROUND_LIMIT {
      forall l, es | Sound(l) && Settled(l) && TimelyRun(l, es) && PromptRun(l, |l.frames|, es) && Sends(es) == n
                     && Returned(Run(l, es), |l.frames|)
        ensures Settled(Run(l, es))
      {
        ReturnedIsDelivered(l, es);
      }
    } else {
      var es := OverflowRun(n);
      assert Sound(START) && Settled(START) && !Settled(Run(START, es));
    }
  }

  /**
   Without that: a late copy of the first frame's acknowledgement, after 65536 frames that
   were all delivered, makes a `write` of one chunk return before anything of it arrived.
   */
  lemma LateAcknowledgementRun() returns (before: seq<Event>, es: seq<Event>)
    ensures TimelyRun(START, before) && Settled(Run(START, before)) && Returned(Run(START, before), 0)
    ensures TimelyRun(Run(START, before), es) && Sends(es) == 1
    ensures var l := Run(Run(START, before), es);
            Returned(l, 0x1_0000) && l.next == 0x1_0000 && |l.frames| == 0x1_0001
  {
    before := SendFrames(0x1_0000);
    before := DeliverInOrder(before, 0x1_0000, 0x1_0000);
    before := AcknowledgeAll(before, 0x1_0000);
    es := [Send([1]), Acknowledge(0)];
    var l := Run(START, before);
    var sent := Step(l, Send([1]));
    assert es[1..] == [Acknowledge(0)] && es[1..][1..] == [];
    assert TimelyRun(Step(sent, Acknowledge(0)), []);
    assert TimelyRun(sent, [Acknowledge(0)]) && Run(sent, [Acknowledge(0)]) == Step(sent, Acknowledge(0));
  }
}
