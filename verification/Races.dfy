/**
 Short runs from the start in which a viewer, a timer or the cache comes to harm. The
 conditions under which that happens are in `Lifecycle`, `Timers` and `LiveFeed`.
 */
module Races {
  import opened Octets
  import opened Scanner
  import opened Lifecycle
  import opened LiveFeed
  import opened Splice

  lemma {:induction false} RunSnoc(s: State, es: seq<Event>, e: Event)
    requires IsRun(s, es) && Enabled(Run(s, es), e)
    ensures IsRun(s, es + [e]) && Run(s, es + [e]) == Step(Run(s, es), e)
    decreases |es|
  {
    if es == [] {
      assert (es + [e])[1..] == [];
      assert IsRun(Step(s, e), []);
    } else {
      assert (es + [e])[1..] == es[1..] + [e];
      RunSnoc(Step(s, es[0]), es[1..], e);
    }
  }

  /** Carry on a run by one event. */
  lemma Then(es: seq<Event>, e: Event) returns (longer: seq<Event>)
    requires IsRun(INITIAL, es) && Enabled(Run(INITIAL, es), e)
    ensures IsRun(INITIAL, longer) && Run(INITIAL, longer) == Step(Run(INITIAL, es), e)
  {
    RunSnoc(INITIAL, es, e);
    longer := es + [e];
  }

  /** A stop decided while nobody watches is carried out under a viewer who came in between. */
  lemma IdleStopRace() returns (es: seq<Event>)
    ensures IsRun(INITIAL, es)
    ensures var s := Run(INITIAL, es);
            s.subscribers == {2} && s.alive == {} && !s.closed && s.process == Some(0)
  {
    es := Then([], Acquire(1, 0, true));
    es := Then(es, Release(1));
    es := Then(es, Fire(0));
    es := Then(es, StopIfIdle(0));
    es := Then(es, Acquire(2, 1, true));
    es := Then(es, Terminate(0));
  }

  /** An old pump's final block drops a viewer of the helper started after it. */
  lemma OldPumpDropsViewer() returns (es: seq<Event>)
    ensures IsRun(INITIAL, es)
    ensures var s := Run(INITIAL, es);
            && s.process == Some(1) && s.alive == {1} && s.subscribers == {}
            && s.handles == {1, 2} && 2 in s.seen && s.seen[2].ended
  {
    es := Then([], Acquire(1, 0, true));
    es := Then(es, Exit(0));
    es := Then(es, Acquire(2, 1, true));
    es := Then(es, Finish(0));
    es := Then(es, End(0, 2));
  }

  /** A timer that fired late clears the reference to a newer one, which can no longer be cancelled. */
  lemma LateTimerLosesNewer() returns (es: seq<Event>)
    ensures IsRun(INITIAL, es)
    ensures var s := Run(INITIAL, es);
            s.idleTimer == None && s.armed == {1} && s.subscribers == {3} && s.alive == {0}
  {
    es := Then([], Acquire(1, 0, true));
    es := Then(es, Release(1));
    es := Then(es, Fire(0));
    es := Then(es, Acquire(2, 1, true));
    es := Then(es, Release(2));
    es := Then(es, StopIfIdle(0));
    es := Then(es, Acquire(3, 1, true));
  }

  /**
   A helper started while an older one's pump is still running: both pumps offer to one
   viewer, and the chunks scanned run ahead of what it was given by more than one.
   */
  lemma OldPumpGap() returns (es: seq<Event>)
    ensures IsRun(INITIAL, es)
    ensures var s := Run(INITIAL, es);
            && 2 in s.subscribers && !Meets(s, 2)
            && 0 in s.pumps && 1 in s.pumps && 2 in s.pumps[0].left && 2 in s.pumps[1].left
  {
    es := Then([], Acquire(1, 0, true));
    es := Then(es, Exit(0));
    es := Then(es, Acquire(2, 1, true));
    es := Then(es, Read(0, [7]));
    es := Then(es, Read(1, [8]));
  }

  /** A start that fails empties the cache under the viewers the old pump has yet to end. */
  lemma FailedStartForgets() returns (es: seq<Event>)
    ensures IsRun(INITIAL, es)
    ensures var s := Run(INITIAL, es); 1 in s.subscribers && !Meets(s, 1)
  {
    es := Then([], Acquire(1, 0, true));
    es := Then(es, Read(0, [7]));
    es := Then(es, Offer(0, 1));
    es := Then(es, Exit(0));
    es := Then(es, Acquire(2, 1, false));
  }

  lemma {:induction false} GuardedSnoc(s: State, es: seq<Event>, e: Event)
    requires IsRun(s, es) && GuardedRun(s, es) && Enabled(Run(s, es), e) && Guarded(Run(s, es), e)
    ensures IsRun(s, es + [e]) && GuardedRun(s, es + [e]) && Run(s, es + [e]) == Step(Run(s, es), e)
    decreases |es|
  {
    RunSnoc(s, es, e);
    if es == [] {
      assert (es + [e])[1..] == [];
      assert GuardedRun(Step(s, e), []);
    } else {
      assert (es + [e])[1..] == es[1..] + [e];
      GuardedSnoc(Step(s, es[0]), es[1..], e);
    }
  }

  /** Carry on a guarded run by one event. */
  lemma ThenGuarded(es: seq<Event>, e: Event) returns (longer: seq<Event>)
    requires IsRun(INITIAL, es) && GuardedRun(INITIAL, es) && Enabled(Run(INITIAL, es), e) && Guarded(Run(INITIAL, es), e)
    ensures IsRun(INITIAL, longer) && GuardedRun(INITIAL, longer) && Run(INITIAL, longer) == Step(Run(INITIAL, es), e)
  {
    GuardedSnoc(INITIAL, es, e);
    longer := es + [e];
  }

  lemma FirstViewer(first: bytes) returns (es: seq<Event>)
    requires 0 < |first| <= READ_BYTES
    ensures IsRun(INITIAL, es) && GuardedRun(INITIAL, es)
    ensures var s := Run(INITIAL, es);
            && !s.closed && s.process == Some(0) && s.alive == {0} && s.subscribers == {1} && s.seen.Keys == {1}
            && Idling(s, 0) && s.media == Feed(EMPTY, first)
  {
    es := ThenGuarded([], Acquire(1, 0, true));
    es := ThenGuarded(es, Read(0, first));
    es := ThenGuarded(es, Offer(0, 1));
  }

  /** A second viewer comes between two chunks. */
  lemma SecondViewer(first: bytes, second: bytes) returns (es: seq<Event>)
    requires 0 < |first| <= READ_BYTES && 0 < |second| <= READ_BYTES
    ensures IsRun(INITIAL, es) && GuardedRun(INITIAL, es)
    ensures var s := Run(INITIAL, es);
            && 2 in s.subscribers && 2 in s.seen
            && s.seen[2].offered == [second] && s.seen[2].preamble == Preamble(Feed(EMPTY, first))
  {
    es := FirstViewer(first);
    es := ThenGuarded(es, Acquire(2, 1, true));
    es := ThenGuarded(es, Read(0, second));
    es := ThenGuarded(es, Offer(0, 2));
  }

  /** A viewer who comes in the middle of a unit decodes the cached keyframe with the rest of that unit behind it. */
  lemma SplicedKeyframe() returns (es: seq<Event>)
    ensures IsRun(INITIAL, es) && GuardedRun(INITIAL, es)
    ensures var s := Run(INITIAL, es);
            && 2 in s.subscribers && 2 in s.seen && s.seen[2].offered == [Rest()]
            && s.seen[2].preamble == Preamble(Cached())
            && |UnitsOf(s.seen[2].preamble + Rest())| >= 3
            && UnitsOf(s.seen[2].preamble + Rest())[2] != Cached().keyframe
  {
    FeedJoined();
    RestSplices();
    es := SecondViewer(Joined(), Rest());
  }
}
