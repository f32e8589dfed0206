/**
 What a viewer is given: the preamble of what was scanned before it came, and then every
 chunk since, as long as no earlier helper's pump is still running when a new one starts.
 And exactly when only that one helper's pump is at work.
 */
module LiveFeed {
  import opened Octets
  import opened Scanner
  import opened ScannerTrimming
  import opened Lifecycle

  /**
   A helper is started only when every earlier one's pump has taken its final lock, and a
   start fails only while nobody is subscribed or nothing has been scanned.
   */
  predicate Guarded(s: State, e: Event) {
    e.Acquire? && NeedsStart(s) ==>
      if e.starts then forall p | p in s.pumps :: s.pumps[p].Ending? else s.subscribers == {} || s.fed == []
  }

  predicate GuardedRun(s: State, es: seq<Event>)
    requires IsRun(s, es)
    decreases |es|
  {
    es != [] ==> Guarded(s, es[0]) && GuardedRun(Step(s, es[0]), es[1..])
  }

  /** Only the session's own helper has a running pump; without one nobody is subscribed. */
  predicate OnePump(s: State) {
    && s.subscribers <= s.seen.Keys
    && (forall p | p in s.pumps && s.pumps[p].Running? :: s.pumps[p].left <= s.seen.Keys)
    && (forall p | p in s.pumps && s.pumps[p].Running? :: s.process == Some(p))
    && (s.process.Some? ==> s.process.value in s.pumps && s.pumps[s.process.value].Running?)
    && (s.process.None? ==> s.subscribers == {})
  }

  /** The chunk still on its way to the viewer, if there is one. */
  function OnItsWay(s: State, v: nat): seq<bytes>
    requires s.process.Some? && s.process.value in s.pumps && s.pumps[s.process.value].Running?
  {
    var pump := s.pumps[s.process.value];
    if v in pump.left then [pump.chunk] else []
  }

  predicate SplitAt(s: State, v: nat)
    requires s.process.Some? && s.process.value in s.pumps && s.pumps[s.process.value].Running?
  {
    && v in s.seen
    && s.seen[v].before + s.seen[v].offered + OnItsWay(s, v) == s.fed
    && s.seen[v].preamble == Preamble(FeedAll(EMPTY, s.seen[v].before))
  }

  predicate Served(s: State) {
    && OnePump(s)
    && s.media == FeedAll(EMPTY, s.fed)
    && (s.process.Some? ==> forall v | v in s.subscribers :: SplitAt(s, v))
  }

  lemma StoppingKeepsOnePump(s: State, e: Event)
    requires OnePump(s) && !e.Acquire? && !e.Read? && !e.Offer? && !e.Finish? && !e.End? && Enabled(s, e)
    ensures OnePump(Step(s, e))
  {
  }

  lemma StepKeepsOnePump(s: State, e: Event)
    requires OnePump(s) && Enabled(s, e) && Guarded(s, e)
    ensures OnePump(Step(s, e))
  {
    if e.Acquire? {
    } else if e.Read? || e.Offer? || e.Finish? || e.End? {
    } else {
      StoppingKeepsOnePump(s, e);
    }
  }

  lemma OnlyReadFeeds(s: State, e: Event)
    requires Enabled(s, e) && !e.Read?
    ensures var s' := Step(s, e);
            || (s'.media == s.media && s'.fed == s.fed)
            || (s'.media == EMPTY && s'.fed == [])
  {
  }

  lemma StepKeepsMedia(s: State, e: Event)
    requires s.media == FeedAll(EMPTY, s.fed) && Enabled(s, e)
    ensures var s' := Step(s, e); s'.media == FeedAll(EMPTY, s'.fed)
  {
    assert FeedAll(EMPTY, []) == EMPTY;
    if e.Read? {
    } else {
      OnlyReadFeeds(s, e);
    }
  }

  lemma NewViewerIsSplit(s: State, e: Event)
    requires Served(s) && e.Acquire? && Enabled(s, e) && Guarded(s, e)
    requires var s' := Step(s, e); OnePump(s') && s'.process.Some? && e.viewer in s'.subscribers
    ensures SplitAt(Step(s, e), e.viewer)
  {
    assert FeedAll(EMPTY, []) == EMPTY;
    var s' := Step(s, e);
    var seen := s'.seen[e.viewer];
    assert seen.before == s'.fed && seen.offered == [] && OnItsWay(s', e.viewer) == [];
    assert s'.fed + [] + [] == s'.fed;
  }

  lemma GivenGrows(before: seq<bytes>, offered: seq<bytes>, chunk: bytes)
    ensures before + (offered + [chunk]) + [] == before + offered + [chunk]
  {
  }

  lemma OfferKeepsSplit(s: State, e: Event, v: nat)
    requires Served(s) && e.Offer? && Enabled(s, e) && s.process.Some? && v in s.subscribers
    ensures OnePump(Step(s, e)) && SplitAt(Step(s, e), v)
  {
    assert SplitAt(s, v);
    var s' := Step(s, e);
    if v == e.viewer {
      var chunk := s.pumps[e.helper].chunk;
      GivenGrows(s.seen[v].before, s.seen[v].offered, chunk);
    }
  }

  /** Steps that are no read and no offer leave what a staying viewer was given alone. */
  lemma OtherStepsKeepGiven(s: State, e: Event, v: nat)
    requires OnePump(s) && !e.Read? && !e.Offer? && Enabled(s, e) && Guarded(s, e)
    requires v in s.seen && s.process.Some? && Step(s, e).process.Some? && v in s.subscribers && v in Step(s, e).subscribers
    ensures var s' := Step(s, e);
            && s'.process == s.process && s'.fed == s.fed
            && s.process.value in s'.pumps && s'.pumps[s.process.value] == s.pumps[s.process.value]
            && v in s'.seen && s'.seen[v].(ended := s.seen[v].ended) == s.seen[v]
  {
  }

  lemma OtherStepsKeepSplit(s: State, e: Event, v: nat)
    requires Served(s) && !e.Read? && !e.Offer? && Enabled(s, e) && Guarded(s, e)
    requires var s' := Step(s, e); OnePump(s') && s'.process.Some? && v in s'.subscribers && v in s.subscribers
    ensures SplitAt(Step(s, e), v)
  {
    assert s.process.Some? && SplitAt(s, v);
    OtherStepsKeepGiven(s, e, v);
  }

  lemma NewSubscriber(s: State, e: Event, v: nat)
    requires Enabled(s, e) && v !in s.subscribers && v in Step(s, e).subscribers
    ensures e.Acquire? && e.viewer == v
  {
  }

  lemma StepKeepsSplit(s: State, e: Event, v: nat)
    requires Served(s) && Enabled(s, e) && Guarded(s, e)
    requires var s' := Step(s, e); OnePump(s') && s'.process.Some? && v in s'.subscribers
    ensures SplitAt(Step(s, e), v)
  {
    if v !in s.subscribers {
      NewSubscriber(s, e, v);
      NewViewerIsSplit(s, e);
    } else if e.Read? {
    } else if e.Offer? {
      OfferKeepsSplit(s, e, v);
    } else {
      OtherStepsKeepSplit(s, e, v);
    }
  }

  lemma StepKeepsServed(s: State, e: Event)
    requires Served(s) && Enabled(s, e) && Guarded(s, e)
    ensures Served(Step(s, e))
  {
    var s' := Step(s, e);
    StepKeepsOnePump(s, e);
    StepKeepsMedia(s, e);
    if s'.process.Some? {
      forall v | v in s'.subscribers
        ensures SplitAt(s', v)
      {
        StepKeepsSplit(s, e, v);
      }
    }
  }

  lemma {:induction false} RunIsServed(s: State, es: seq<Event>)
    requires Served(s) && IsRun(s, es) && GuardedRun(s, es)
    ensures Served(Run(s, es))
    decreases |es|
  {
    if es != [] {
      StepKeepsServed(s, es[0]);
      RunIsServed(Step(s, es[0]), es[1..]);
    }
  }

  /** What was scanned when the viewer came, what it was offered since, and at most one chunk on its way. */
  ghost predicate Meets(s: State, v: nat) {
    && v in s.seen
    && (s.fed == s.seen[v].before + s.seen[v].offered
        || exists chunk :: s.fed == s.seen[v].before + s.seen[v].offered + [chunk])
  }

  lemma {:induction false} FedIsShort(s: State, es: seq<Event>)
    requires NoneLonger(s.fed, READ_BYTES) && IsRun(s, es)
    ensures NoneLonger(Run(s, es).fed, READ_BYTES)
    decreases |es|
  {
    if es != [] {
      if !es[0].Read? {
        OnlyReadFeeds(s, es[0]);
      }
      FedIsShort(Step(s, es[0]), es[1..]);
    }
  }

  lemma FrontIsShort(chunks: seq<bytes>, front: seq<bytes>, n: nat)
    requires NoneLonger(chunks, n) && front <= chunks
    ensures NoneLonger(front, n)
  {
    forall i | 0 <= i < |front|
      ensures |front[i]| <= n
    {
      assert front[i] == chunks[i];
    }
  }

  /**
   No chunk is skipped and none offered twice: for every subscribed viewer, the chunks
   scanned when it came, then those offered to it since, then at most one on its way, are all
   chunks scanned; and its preamble is that of exactly the bytes scanned when it came, scanned
   at once. Of those bytes it is given only that preamble (see `Splice`).
   */
  lemma CacheAndLiveDataMeet(es: seq<Event>, v: nat)
    requires IsRun(INITIAL, es) && GuardedRun(INITIAL, es)
    requires v in Run(INITIAL, es).subscribers
    ensures var s := Run(INITIAL, es);
            && s.process.Some? && Meets(s, v)
            && s.seen[v].preamble == Preamble(Whole(Concat(s.seen[v].before)))
  {
    RunIsServed(INITIAL, es);
    var s := Run(INITIAL, es);
    FedIsShort(INITIAL, es);
    FrontIsShort(s.fed, s.seen[v].before, READ_BYTES);
    ChunkingIsIrrelevant(s.seen[v].before);
  }

  // ---------------------------------------------------------------------------------
  // The guard is exact

  predicate NoAcquires(es: seq<Event>) {
    forall i | 0 <= i < |es| :: !es[i].Acquire?
  }

  lemma {:induction false} NoAcquiresIsGuarded(s: State, es: seq<Event>)
    requires IsRun(s, es) && NoAcquires(es)
    ensures GuardedRun(s, es)
    decreases |es|
  {
    if es != [] {
      NoAcquiresIsGuarded(Step(s, es[0]), es[1..]);
    }
  }

  /** What does not change while a pump offers its chunk to viewers other than `v`. */
  predicate OnlyOffered(s: State, t: State, p: nat, v: nat) {
    && t.fed == s.fed && t.subscribers == s.subscribers && t.process == s.process
    && v in s.seen && v in t.seen && t.seen[v] == s.seen[v]
    && forall q | q in s.pumps && q != p :: q in t.pumps && t.pumps[q] == s.pumps[q]
  }

  /** A running pump can finish offering the chunk it has. */
  lemma {:induction false} FinishOffering(s: State, p: nat, v: nat) returns (es: seq<Event>)
    requires p in s.pumps && s.pumps[p].Running? && s.pumps[p].left <= s.seen.Keys
    requires v in s.seen && v !in s.pumps[p].left
    ensures IsRun(s, es) && forall i | 0 <= i < |es| :: es[i].Offer?
    ensures Idling(Run(s, es), p) && OnlyOffered(s, Run(s, es), p, v) && Run(s, es).alive == s.alive
    decreases s.pumps[p].left
  {
    if s.pumps[p].left == {} {
      es := [];
    } else {
      var u :| u in s.pumps[p].left;
      var rest := FinishOffering(Step(s, Offer(p, u)), p, v);
      es := [Offer(p, u)] + rest;
      assert es[1..] == rest;
    }
  }

  lemma {:induction false} RunAppend(s: State, a: seq<Event>, b: seq<Event>)
    requires IsRun(s, a) && IsRun(Run(s, a), b)
    ensures IsRun(s, a + b) && Run(s, a + b) == Run(Run(s, a), b)
    decreases |a|
  {
    if a == [] {
      assert a + b == b;
    } else {
      assert (a + b)[1..] == a[1..] + b;
      RunAppend(Step(s, a[0]), a[1..], b);
    }
  }

  /** Two pumps at rest each read a chunk: both are scanned before either is offered. */
  lemma BothRead(s: State, p: nat, q: nat) returns (es: seq<Event>)
    requires p != q && Idling(s, p) && Idling(s, q)
    ensures IsRun(s, es) && NoAcquires(es)
    ensures var t := Run(s, es); t.fed == s.fed + [[7], [8]] && t.subscribers == s.subscribers && t.seen == s.seen
  {
    es := [Read(p, [7]), Read(q, [8])];
    assert es[1..] == [Read(q, [8])] && es[1..][1..] == [];
    var a := Step(s, es[0]);
    assert IsRun(a, [Read(q, [8])]) && Run(a, [Read(q, [8])]) == Step(a, Read(q, [8])) by {
      assert IsRun(Step(a, Read(q, [8])), []);
    }
  }

  /** A helper started over a running pump: its first viewer can fall behind by two chunks. */
  lemma UnguardedStartCanGap(s: State, e: Event) returns (es: seq<Event>)
    requires OnePump(s) && e.Acquire? && e.starts && NeedsStart(s) && Enabled(s, e) && !Guarded(s, e)
    ensures IsRun(Step(s, e), es) && NoAcquires(es)
    ensures e.viewer in Run(Step(s, e), es).subscribers && !Meets(Run(Step(s, e), es), e.viewer)
  {
    var p :| p in s.pumps && s.pumps[p].Running?;
    var a := Step(s, e);
    var offers := FinishOffering(a, p, e.viewer);
    var b := Run(a, offers);
    var both := BothRead(b, p, e.helper);
    RunAppend(a, offers, both);
    es := offers + both;
    assert |Run(a, es).fed| == 2;
  }

  ghost predicate AllMeet(s: State) {
    forall v | v in s.subscribers :: Meets(s, v)
  }

  lemma RunMeets(s: State, es: seq<Event>)
    requires Served(s) && IsRun(s, es) && NoAcquires(es)
    ensures AllMeet(Run(s, es))
  {
    NoAcquiresIsGuarded(s, es);
    RunIsServed(s, es);
    forall v | v in Run(s, es).subscribers
      ensures Meets(Run(s, es), v)
    {
    }
  }

  lemma OneStep(s: State, e: Event)
    requires Enabled(s, e)
    ensures IsRun(s, [e]) && Run(s, [e]) == Step(s, e)
  {
    assert [e][1..] == [];
    assert IsRun(Step(s, e), []);
  }

  /** A start that fails under a viewer: the cache no longer meets what that viewer was given, or is about to be. */
  lemma UnguardedFailureCanGap(s: State, e: Event) returns (es: seq<Event>)
    requires Served(s) && e.Acquire? && !e.starts && NeedsStart(s) && Enabled(s, e) && !Guarded(s, e)
    ensures IsRun(Step(s, e), es) && NoAcquires(es) && !AllMeet(Run(Step(s, e), es))
  {
    var v :| v in s.subscribers;
    assert SplitAt(s, v);
    var a := Step(s, e);
    if s.seen[v].before + s.seen[v].offered != [] {
      es := [];
      assert !Meets(a, v);
    } else {
      es := [Offer(s.process.value, v)];
      OneStep(a, es[0]);
      assert !Meets(Step(a, es[0]), v);
    }
  }

  /**
   The guard is exact: of a helper about to be started, whether or not that succeeds, and
   whatever the pumps, timers and viewers do next, live data meets the cache for every
   subscribed viewer, until another viewer comes, if and only if the start is guarded.
   */
  lemma StartGuardIsExact(s: State, e: Event)
    requires Served(s) && e.Acquire? && NeedsStart(s) && Enabled(s, e)
    ensures Guarded(s, e) <==>
            forall es | IsRun(Step(s, e), es) && NoAcquires(es) :: AllMeet(Run(Step(s, e), es))
  {
    if Guarded(s, e) {
      StepKeepsServed(s, e);
      forall es | IsRun(Step(s, e), es) && NoAcquires(es)
        ensures AllMeet(Run(Step(s, e), es))
      {
        RunMeets(Step(s, e), es);
      }
    } else if e.starts {
      var es := UnguardedStartCanGap(s, e);
    } else {
      var es := UnguardedFailureCanGap(s, e);
    }
  }

  // ---------------------------------------------------------------------------------
  // Who drops a viewer

  /** The viewer stays, its helper's pump has not ended, and no new viewer comes. */
  predicate Undisturbed(es: seq<Event>, helper: nat, viewer: nat) {
    forall i | 0 <= i < |es| :: !es[i].Acquire? && es[i] != Finish(helper) && es[i] != Release(viewer)
  }

  /** No pump but this one is running. */
  predicate OnlyRunning(s: State, helper: nat) {
    forall p | p in s.pumps && s.pumps[p].Running? :: p == helper
  }

  lemma {:induction false} StaysSubscribed(s: State, es: seq<Event>, helper: nat, viewer: nat)
    requires OnlyRunning(s, helper) && viewer in s.subscribers && IsRun(s, es) && Undisturbed(es, helper, viewer)
    ensures viewer in Run(s, es).subscribers
    decreases |es|
  {
    if es != [] {
      StaysSubscribed(Step(s, es[0]), es[1..], helper, viewer);
    }
  }

  /** An older pump that is still running can end, and drop the new helper's viewer. */
  lemma OlderPumpCanDrop(s: State, e: Event) returns (es: seq<Event>)
    requires OnePump(s) && OneHelper(s) && e.Acquire? && e.starts && NeedsStart(s) && Enabled(s, e) && !Guarded(s, e)
    ensures IsRun(Step(s, e), es) && Undisturbed(es, e.helper, e.viewer)
    ensures e.viewer !in Run(Step(s, e), es).subscribers
  {
    var p :| p in s.pumps && s.pumps[p].Running?;
    var a := Step(s, e);
    var offers := FinishOffering(a, p, e.viewer);
    OneStep(Run(a, offers), Finish(p));
    RunAppend(a, offers, [Finish(p)]);
    es := offers + [Finish(p)];
  }

  /**
   Exactly when a viewer cannot be dropped by an older pump: until its own helper's pump ends,
   it releases its subscription, or another viewer comes, the first viewer of a helper stays
   subscribed whatever happens if and only if no earlier pump was running at the start.
   */
  lemma DropIsExact(s: State, e: Event)
    requires OnePump(s) && OneHelper(s) && e.Acquire? && e.starts && NeedsStart(s) && Enabled(s, e)
    ensures Guarded(s, e) <==>
            forall es | IsRun(Step(s, e), es) && Undisturbed(es, e.helper, e.viewer) ::
              e.viewer in Run(Step(s, e), es).subscribers
  {
    if Guarded(s, e) {
      forall es | IsRun(Step(s, e), es) && Undisturbed(es, e.helper, e.viewer)
        ensures e.viewer in Run(Step(s, e), es).subscribers
      {
        StaysSubscribed(Step(s, e), es, e.helper, e.viewer);
      }
    } else {
      var es := OlderPumpCanDrop(s, e);
    }
  }

  // ---------------------------------------------------------------------------------
  // Only the session's own pump

  /** No pump but that of the session's helper is running. */
  predicate OwnPumpOnly(s: State) {
    forall p | p in s.pumps && s.pumps[p].Running? :: s.process == Some(p)
  }

  /** A helper is started while a pump is running. */
  predicate StartsOverPump(s: State, e: Event) {
    e.Acquire? && e.starts && NeedsStart(s) && exists p :: p in s.pumps && s.pumps[p].Running?
  }

  predicate AlwaysOwnPump(s: State, es: seq<Event>)
    requires IsRun(s, es)
    decreases |es|
  {
    OwnPumpOnly(s) && (es != [] ==> AlwaysOwnPump(Step(s, es[0]), es[1..]))
  }

  predicate NeverStartsOver(s: State, es: seq<Event>)
    requires IsRun(s, es)
    decreases |es|
  {
    es != [] ==> !StartsOverPump(s, es[0]) && NeverStartsOver(Step(s, es[0]), es[1..])
  }

  /** Only the session's own pump runs, in every state of a run, if and only if no helper is started over a running one. */
  lemma {:induction false} OwnPumpIsExact(s: State, es: seq<Event>)
    requires OwnPumpOnly(s) && IsRun(s, es)
    ensures AlwaysOwnPump(s, es) <==> NeverStartsOver(s, es)
    decreases |es|
  {
    if es != [] {
      if !StartsOverPump(s, es[0]) {
        OwnPumpIsExact(Step(s, es[0]), es[1..]);
      }
    }
  }

  lemma {:induction false} RunKeepsOwnPump(s: State, es: seq<Event>)
    requires OwnPumpOnly(s) && IsRun(s, es) && NeverStartsOver(s, es)
    ensures OwnPumpOnly(Run(s, es))
    decreases |es|
  {
    if es != [] {
      RunKeepsOwnPump(Step(s, es[0]), es[1..]);
    }
  }

  /**
   In such a run the pump that reads, offers or takes its final lock is that of the session's
   helper: no viewer is offered chunks by two pumps, and none is dropped by an older one.
   */
  lemma OnlyOwnPumpActs(es: seq<Event>, p: nat, e: Event)
    requires IsRun(INITIAL, es) && NeverStartsOver(INITIAL, es) && Enabled(Run(INITIAL, es), e)
    requires (e.Read? || e.Offer? || e.Finish?) && e.helper == p
    ensures Run(INITIAL, es).process == Some(p)
  {
    RunKeepsOwnPump(INITIAL, es);
  }
}
