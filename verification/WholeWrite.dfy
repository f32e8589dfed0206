/**
 A whole `write` as a run of the link: all chunks are sent, and then the sender waits, one turn
 after the other, while at the receiver anything may happen.
 */
module WholeWrite {
  import opened Octets
  import opened Channel
  import opened Link

  /** The link after all chunks were sent. */
  function AfterSends(l: Link, chunks: seq<bytes>): Link {
    if chunks == [] then l
    else Step(AfterSends(l, chunks[..|chunks| - 1]), Send(chunks[|chunks| - 1]))
  }

  lemma {:induction false} SendsAreRun(l: Link, base: nat, chunks: seq<bytes>) returns (es: seq<Event>)
    ensures TimelyRun(l, es) && Run(l, es) == AfterSends(l, chunks) && Sends(es) == |chunks|
    ensures PromptRun(l, base, es)
    ensures AfterSends(l, chunks).frames == l.frames + chunks
    ensures AfterSends(l, chunks).written == l.written + Concat(chunks)
  {
    if chunks == [] {
      es := [];
    } else {
      var front, last := chunks[..|chunks| - 1], chunks[|chunks| - 1];
      es := SendsAreRun(l, base, front);
      RunSnoc(l, es, Send(last));
      PromptSnoc(l, base, es, Send(last));
      es := es + [Send(last)];
      assert chunks == front + [last];
    }
  }

  /** What happens at the receiver before a turn of the sender, and the frame that turn acknowledges, if any. */
  datatype Turn = Turn(meanwhile: seq<Event>, ack: Option<nat>)

  function EventsOf(t: Turn): seq<Event> {
    t.meanwhile + (if t.ack.Some? then [Acknowledge(t.ack.value)] else [])
  }

  predicate AtReceiver(es: seq<Event>) {
    forall i | 0 <= i < |es| :: es[i].Deliver? || es[i].Take?
  }

  /** The keys the sender's turn acknowledges are that frame's, or none on the channel. */
  predicate TurnFits(l: Link, acked: set<nat>, t: Turn) {
    && AtReceiver(t.meanwhile) && TimelyRun(l, t.meanwhile)
    && match t.ack
       case None => acked == {}
       case Some(k) => k in Run(l, t.meanwhile).acked && acked == {Wrap(k)}
  }

  /** What happens in the first `n` turns of the sender. */
  function AllEvents(turns: seq<Turn>, n: nat): seq<Event>
    requires n <= |turns|
  {
    if n == 0 then [] else AllEvents(turns, n - 1) + EventsOf(turns[n - 1])
  }

  function AfterWaiting(l: Link, turns: seq<Turn>, n: nat): Link
    requires n <= |turns|
  {
    if TimelyRun(l, AllEvents(turns, n)) then Run(l, AllEvents(turns, n)) else l
  }

  /** `acked` lists, for each turn, the numbers it acknowledges. */
  predicate TurnsFit(l: Link, acked: seq<set<nat>>, turns: seq<Turn>) {
    && |turns| == |acked|
    && forall n | 0 <= n < |acked| :: TurnFits(AfterWaiting(l, turns, n), acked[n], turns[n])
  }

  predicate PromptTurns(base: nat, n: nat, turns: seq<Turn>) {
    forall i | 0 <= i < |turns| && turns[i].ack.Some? :: Prompt(base, n, turns[i].ack.value)
  }

  /** Events at the receiver leave the sender's side alone. */
  lemma {:induction false} ReceiverEvents(l: Link, base: nat, es: seq<Event>)
    requires AtReceiver(es) && TimelyRun(l, es)
    ensures PromptRun(l, base, es) && Sends(es) == 0
    ensures var m := Run(l, es); m.frames == l.frames && m.written == l.written && m.pending == l.pending
    decreases |es|
  {
    if es != [] {
      ReceiverEvents(Step(l, es[0]), base, es[1..]);
    }
  }

  lemma TurnIsRun(l: Link, acked: set<nat>, t: Turn)
    requires TurnFits(l, acked, t)
    ensures TimelyRun(l, EventsOf(t)) && Sends(EventsOf(t)) == 0
    ensures var m := Run(l, EventsOf(t));
            && m.frames == l.frames && m.written == l.written && m.pending <= l.pending
            && acked !! m.pending
  {
    ReceiverEvents(l, 0, t.meanwhile);
    if t.ack.Some? {
      var m, k := Run(l, t.meanwhile), t.ack.value;
      RunSnoc(l, t.meanwhile, Acknowledge(k));
    } else {
      assert EventsOf(t) == t.meanwhile;
    }
  }

  lemma TurnIsPrompt(l: Link, base: nat, acked: set<nat>, t: Turn)
    requires TurnFits(l, acked, t)
    requires t.ack.Some? ==> Prompt(base, |l.frames|, t.ack.value)
    ensures TimelyRun(l, EventsOf(t)) && PromptRun(l, base, EventsOf(t))
  {
    ReceiverEvents(l, base, t.meanwhile);
    if t.ack.Some? {
      PromptSnoc(l, base, t.meanwhile, Acknowledge(t.ack.value));
    } else {
      assert EventsOf(t) == t.meanwhile;
    }
  }

  /** One of the first `n` turns acknowledges the number. */
  predicate Within(acked: seq<set<nat>>, n: nat, s: nat) {
    exists i | 0 <= i < n && i < |acked| :: s in acked[i]
  }

  /** What was acknowledged in the first `n` turns is not among these numbers. */
  predicate Cleared(pending: set<nat>, acked: seq<set<nat>>, n: nat) {
    forall i | 0 <= i < n && i < |acked| :: acked[i] !! pending
  }

  /** One more turn carries a run on. */
  lemma MoreWaiting(l: Link, before: seq<Event>, m: Link, t: Turn, acked: set<nat>)
    requires TimelyRun(l, before) && Run(l, before) == m && Sends(before) == 0
    requires TurnFits(m, acked, t)
    ensures var es := before + EventsOf(t);
            TimelyRun(l, es) && TimelyRun(m, EventsOf(t)) && Run(l, es) == Run(m, EventsOf(t)) && Sends(es) == 0
  {
    TurnIsRun(m, acked, t);
    RunAppend(l, before, EventsOf(t));
  }

  /** Waiting is a run of the link without sends. */
  lemma {:induction false} WaitingIsRun(l: Link, acked: seq<set<nat>>, turns: seq<Turn>, n: nat)
    requires TurnsFit(l, acked, turns) && n <= |acked|
    ensures TimelyRun(l, AllEvents(turns, n)) && Sends(AllEvents(turns, n)) == 0
  {
    if n > 0 {
      WaitingIsRun(l, acked, turns, n - 1);
      MoreWaiting(l, AllEvents(turns, n - 1), AfterWaiting(l, turns, n - 1), turns[n - 1], acked[n - 1]);
    }
  }

  lemma NextTurn(l: Link, acked: seq<set<nat>>, turns: seq<Turn>, n: nat)
    requires TurnsFit(l, acked, turns) && n < |acked|
    ensures TimelyRun(AfterWaiting(l, turns, n), EventsOf(turns[n]))
    ensures AfterWaiting(l, turns, n + 1) == Run(AfterWaiting(l, turns, n), EventsOf(turns[n]))
  {
    WaitingIsRun(l, acked, turns, n);
    MoreWaiting(l, AllEvents(turns, n), AfterWaiting(l, turns, n), turns[n], acked[n]);
  }

  predicate SameFrames(l: Link, m: Link) {
    m.frames == l.frames && m.written == l.written
  }

  lemma NothingYet(l: Link, turns: seq<Turn>)
    ensures AfterWaiting(l, turns, 0) == l
  {
    assert AllEvents(turns, 0) == [];
  }

  lemma TurnClears(m: Link, acked: seq<set<nat>>, n: nat, t: Turn)
    requires n < |acked| && TurnFits(m, acked[n], t)
    requires Cleared(m.pending, acked, n)
    ensures TimelyRun(m, EventsOf(t)) && Cleared(Run(m, EventsOf(t)).pending, acked, n + 1)
    ensures SameFrames(m, Run(m, EventsOf(t)))
  {
    TurnIsRun(m, acked[n], t);
  }

  /** What is acknowledged while waiting is no longer pending. */
  lemma AckedLeaves(l: Link, acked: seq<set<nat>>, turns: seq<Turn>, n: nat)
    requires TurnsFit(l, acked, turns) && n <= |acked|
    ensures SameFrames(l, AfterWaiting(l, turns, n))
    ensures Cleared(AfterWaiting(l, turns, n).pending, acked, n)
  {
    NothingYet(l, turns);
    for i := 0 to n
      invariant SameFrames(l, AfterWaiting(l, turns, i))
      invariant Cleared(AfterWaiting(l, turns, i).pending, acked, i)
    {
      NextTurn(l, acked, turns, i);
      TurnClears(AfterWaiting(l, turns, i), acked, i, turns[i]);
    }
  }

  lemma MorePrompt(
    l: Link, base: nat, before: seq<Event>, m: Link, t: Turn, acked: set<nat>)
    requires TimelyRun(l, before) && Run(l, before) == m && PromptRun(l, base, before)
    requires TurnFits(m, acked, t)
    requires t.ack.Some? ==> Prompt(base, |m.frames|, t.ack.value)
    ensures TimelyRun(l, before + EventsOf(t)) && PromptRun(l, base, before + EventsOf(t))
  {
    TurnIsPrompt(m, base, acked, t);
    PromptAppend(l, base, before, EventsOf(t));
  }

  lemma NextIsPrompt(l: Link, base: nat, acked: seq<set<nat>>, turns: seq<Turn>, n: nat)
    requires TurnsFit(l, acked, turns) && n < |acked|
    requires PromptTurns(base, |l.frames|, turns)
    requires TimelyRun(l, AllEvents(turns, n)) && PromptRun(l, base, AllEvents(turns, n))
    ensures TimelyRun(l, AllEvents(turns, n + 1)) && PromptRun(l, base, AllEvents(turns, n + 1))
  {
    var m, before, t := AfterWaiting(l, turns, n), AllEvents(turns, n), turns[n];
    assert |m.frames| == |l.frames| by {
      AckedLeaves(l, acked, turns, n);
    }
    MorePrompt(l, base, before, m, t, acked[n]);
    assert AllEvents(turns, n + 1) == before + EventsOf(t);
  }

  lemma WaitingIsPrompt(l: Link, base: nat, acked: seq<set<nat>>, turns: seq<Turn>, n: nat)
    requires TurnsFit(l, acked, turns) && n <= |acked|
    requires PromptTurns(base, |l.frames|, turns)
    ensures TimelyRun(l, AllEvents(turns, n)) && PromptRun(l, base, AllEvents(turns, n))
  {
    assert AllEvents(turns, 0) == [];
    for i := 0 to n
      invariant TimelyRun(l, AllEvents(turns, i)) && PromptRun(l, base, AllEvents(turns, i))
    {
      NextIsPrompt(l, base, acked, turns, i);
    }
  }

  /** The first `used` turns acknowledge every number of a write. */
  predicate AllAcked(acked: seq<set<nat>>, used: nat, base: nat, n: nat) {
    forall j: nat | base <= j < base + n :: Within(acked, used, Wrap(j))
  }

  lemma ClearedIsReturned(l: Link, acked: seq<set<nat>>, used: nat, base: nat, n: nat)
    requires Cleared(l.pending, acked, used) && AllAcked(acked, used, base, n) && |l.frames| == base + n
    ensures Returned(l, base)
  {
    forall k: nat | base <= k < |l.frames|
      ensures Wrap(k) !in l.pending
    {
      assert Within(acked, used, Wrap(k));
    }
  }

  /** The run of the link that a whole write with `used` turns is. */
  lemma WriteIsRun(l: Link, acked: seq<set<nat>>, turns: seq<Turn>, used: nat, chunks: seq<bytes>) returns (es: seq<Event>)
    requires TurnsFit(AfterSends(l, chunks), acked, turns) && used <= |acked|
    requires AllAcked(acked, used, |l.frames|, |chunks|)
    ensures TimelyRun(l, es) && Sends(es) == |chunks|
    ensures Returned(Run(l, es), |l.frames|) && Run(l, es).written == l.written + Concat(chunks)
    ensures PromptTurns(|l.frames|, |l.frames| + |chunks|, turns) ==> PromptRun(l, |l.frames|, es)
  {
    var base := |l.frames|;
    var sends := SendsAreRun(l, base, chunks);
    var sent, waits := AfterSends(l, chunks), AllEvents(turns, used);
    WaitingIsRun(sent, acked, turns, used);
    AckedLeaves(sent, acked, turns, used);
    ClearedIsReturned(AfterWaiting(sent, turns, used), acked, used, base, |chunks|);
    RunAppend(l, sends, waits);
    if PromptTurns(base, base + |chunks|, turns) {
      WaitingIsPrompt(sent, base, acked, turns, used);
      PromptAppend(l, base, sends, waits);
    }
    es := sends + waits;
  }
}
