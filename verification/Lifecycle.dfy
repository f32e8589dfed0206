/**
 The life of a shared stream session as atomic steps. Each block under the session's lock is
 one step; what happens outside the lock (a timer firing, carrying out a stop, a helper
 exiting, putting a chunk or the end mark into one viewer's queue) is a step of its own,
 so any interleaving of the threads is a sequence of these steps.

 Helpers, timers and viewers are numbered as they are made. `fed` lists the chunks scanned
 since the current helper was started; `seen` and `decided` are bookkeeping.
 */
module Lifecycle {
  import opened Octets
  import opened Scanner

  /** What a helper's pump thread is doing. */
  datatype Pump =
    | Running(chunk: bytes, left: set<nat>)   // offering the chunk to the viewers left
    | Ending(left: set<nat>)                  // past its final lock block, sending end marks

  datatype Seen = Seen(before: seq<bytes>, preamble: bytes, offered: seq<bytes>, ended: bool)

  datatype State = State(
    closed: bool,
    process: Option<nat>,
    alive: set<nat>,
    pumps: map<nat, Pump>,
    subscribers: set<nat>,
    handles: set<nat>,          // subscriptions handed out and not yet released
    idleTimer: Option<nat>,
    armed: set<nat>,            // timers started, not cancelled, not fired
    fired: set<nat>,            // timers that fired and have not yet taken the lock
    stops: set<nat>,            // helpers whose stop is decided and not yet carried out
    decided: map<nat, set<nat>>,// the viewers known when a helper's stop was last decided
    media: Cache,
    fed: seq<bytes>,
    seen: map<nat, Seen>,
    timers: nat)

  const INITIAL := State(false, None, {}, map[], {}, {}, None, {}, {}, {}, map[], EMPTY, [], map[], 0)

  datatype Event =
    | Acquire(viewer: nat, helper: nat, starts: bool)
    | Release(viewer: nat)
    | Fire(timer: nat)
    | StopIfIdle(timer: nat)
    | Terminate(helper: nat)
    | Exit(helper: nat)
    | Read(helper: nat, chunk: bytes)
    | Offer(helper: nat, viewer: nat)
    | Finish(helper: nat)
    | End(helper: nat, viewer: nat)
    | Close

  /** A pump reads at most 64 KiB at a time. */
  const READ_BYTES: nat := 65536

  /** `acquire` starts a helper when there is none or the last one has exited. */
  predicate NeedsStart(s: State) {
    s.process.None? || s.process.value !in s.alive
  }

  predicate Idling(s: State, helper: nat) {
    helper in s.pumps && s.pumps[helper].Running? && s.pumps[helper].left == {}
  }

  predicate Enabled(s: State, e: Event) {
    match e
    case Acquire(v, p, _) =>
      !s.closed && v !in s.seen && (NeedsStart(s) ==> p !in s.pumps && p !in s.alive)
    case Release(v) => v in s.handles
    case Fire(t) => t in s.armed
    case StopIfIdle(t) => t in s.fired
    case Terminate(p) => p in s.stops
    case Exit(p) => p in s.alive
    case Read(p, chunk) => Idling(s, p) && 0 < |chunk| <= READ_BYTES
    case Offer(p, v) => p in s.pumps && s.pumps[p].Running? && v in s.pumps[p].left && v in s.seen
    case Finish(p) => Idling(s, p) && p !in s.alive
    case End(p, v) => p in s.pumps && s.pumps[p].Ending? && v in s.pumps[p].left && v in s.seen
    case Close => true
  }

  /** Cancelling has no effect on a timer that has already fired. */
  function CancelTimer(s: State): State {
    if s.idleTimer.None? then s
    else s.(armed := s.armed - {s.idleTimer.value}, idleTimer := None)
  }

  function ForgetMedia(s: State): State {
    s.(media := EMPTY, fed := [])
  }

  function StartHelper(s: State, helper: nat): State {
    ForgetMedia(s).(process := Some(helper), alive := s.alive + {helper},
                    pumps := s.pumps[helper := Running([], {})])
  }

  function AddViewer(s: State, viewer: nat): State {
    s.(subscribers := s.subscribers + {viewer}, handles := s.handles + {viewer},
       seen := s.seen[viewer := Seen(s.fed, Preamble(s.media), [], false)])
  }

  function DecideStop(s: State): State {
    match s.process
    case None => s
    case Some(p) => s.(stops := s.stops + {p}, decided := s.decided[p := s.seen.Keys])
  }

  function Step(s: State, e: Event): State
    requires Enabled(s, e)
  {
    match e
    case Acquire(v, p, starts) =>
      var c := CancelTimer(s);
      if !NeedsStart(s) then AddViewer(c, v)
      else if starts then AddViewer(StartHelper(c, p), v)
      else ForgetMedia(c)
    case Release(v) =>
      var r := s.(subscribers := s.subscribers - {v}, handles := s.handles - {v});
      if r.subscribers == {} && r.process.Some? && !r.closed
      then CancelTimer(r).(idleTimer := Some(r.timers), armed := CancelTimer(r).armed + {r.timers},
                           timers := r.timers + 1)
      else r
    case Fire(t) => s.(armed := s.armed - {t}, fired := s.fired + {t})
    case StopIfIdle(t) =>
      var r := s.(fired := s.fired - {t}, idleTimer := None);
      if r.subscribers != {} || r.closed then r else DecideStop(r)
    case Terminate(p) => s.(stops := s.stops - {p}, alive := s.alive - {p})
    case Exit(p) => s.(alive := s.alive - {p})
    case Read(p, chunk) =>
      s.(media := Feed(s.media, chunk), fed := s.fed + [chunk],
         pumps := s.pumps[p := Running(chunk, s.subscribers)])
    case Offer(p, v) =>
      var Running(chunk, left) := s.pumps[p];
      s.(pumps := s.pumps[p := Running(chunk, left - {v})],
         seen := s.seen[v := s.seen[v].(offered := s.seen[v].offered + [chunk])])
    case Finish(p) =>
      s.(subscribers := {}, process := if s.process == Some(p) then None else s.process,
         pumps := s.pumps[p := Ending(s.subscribers)])
    case End(p, v) =>
      s.(pumps := s.pumps[p := Ending(s.pumps[p].left - {v})],
         seen := s.seen[v := s.seen[v].(ended := true)])
    case Close => DecideStop(CancelTimer(s.(closed := true)))
  }

  predicate IsRun(s: State, es: seq<Event>)
    decreases |es|
  {
    es != [] ==> Enabled(s, es[0]) && IsRun(Step(s, es[0]), es[1..])
  }

  function Run(s: State, es: seq<Event>): State
    requires IsRun(s, es)
    decreases |es|
  {
    if es == [] then s else Run(Step(s, es[0]), es[1..])
  }

  // ---------------------------------------------------------------------------------
  // No leaked helper

  /** At most one helper has not exited, and it is the session's. */
  predicate OneHelper(s: State) {
    forall p | p in s.alive :: s.process == Some(p)
  }

  /**
   A live helper without subscribers has someone who will stop it: a pending timer, a
   pending stop of itself, or a subscription still to be released. Once the session is
   closed, a live helper has a pending stop.
   */
  predicate Watched(s: State) {
    && s.subscribers <= s.handles
    && (s.closed ==> s.alive <= s.stops)
    && (s.alive != {} && s.subscribers == {} && !s.closed ==>
          s.armed != {} || s.fired != {} || s.alive <= s.stops || s.handles != {})
  }

  /** Only viewers who came after the decision are subscribed to a helper about to be stopped as idle. */
  predicate StopsPredateViewers(s: State) {
    && s.subscribers <= s.seen.Keys
    && (forall p | p in s.decided :: s.decided[p] <= s.seen.Keys)
    && (!s.closed ==> forall p | p in s.stops :: p in s.decided && s.subscribers !! s.decided[p])
  }

  predicate Leakless(s: State) {
    OneHelper(s) && Watched(s) && StopsPredateViewers(s)
  }

  lemma StepKeepsOneHelper(s: State, e: Event)
    requires OneHelper(s) && Enabled(s, e)
    ensures OneHelper(Step(s, e))
  {
  }

  lemma StepKeepsWatched(s: State, e: Event)
    requires OneHelper(s) && Watched(s) && Enabled(s, e)
    ensures Watched(Step(s, e))
  {
  }

  /** A stop decided with nobody subscribed, or after closing, predates every later viewer. */
  lemma DecideStopKeepsPredating(s: State)
    requires StopsPredateViewers(s) && (s.subscribers == {} || s.closed)
    ensures StopsPredateViewers(DecideStop(s))
  {
  }

  lemma AcquireKeepsPredating(s: State, e: Event)
    requires StopsPredateViewers(s) && e.Acquire? && Enabled(s, e)
    ensures StopsPredateViewers(Step(s, e))
  {
  }

  lemma OtherStepsKeepPredating(s: State, e: Event)
    requires StopsPredateViewers(s) && !e.Acquire? && !e.StopIfIdle? && !e.Close? && Enabled(s, e)
    ensures StopsPredateViewers(Step(s, e))
  {
  }

  lemma StepKeepsPredating(s: State, e: Event)
    requires StopsPredateViewers(s) && Enabled(s, e)
    ensures StopsPredateViewers(Step(s, e))
  {
    match e
    case Acquire(_, _, _) => AcquireKeepsPredating(s, e);
    case StopIfIdle(t) =>
      var r := s.(fired := s.fired - {t}, idleTimer := None);
      if r.subscribers == {} {
        DecideStopKeepsPredating(r);
      }
    case Close => DecideStopKeepsPredating(CancelTimer(s.(closed := true)));
    case _ => OtherStepsKeepPredating(s, e);
  }

  lemma {:induction false} RunIsLeakless(s: State, es: seq<Event>)
    requires Leakless(s) && IsRun(s, es)
    ensures Leakless(Run(s, es))
    decreases |es|
  {
    if es != [] {
      StepKeepsOneHelper(s, es[0]);
      StepKeepsWatched(s, es[0]);
      StepKeepsPredating(s, es[0]);
      RunIsLeakless(Step(s, es[0]), es[1..]);
    }
  }

  /**
   In every interleaving: at most one helper is live and it is the session's; it is never
   left without anyone to stop it; and once nothing is pending and every subscription is
   released, or nothing is pending and the session is closed, no helper is live.
   */
  lemma NoHelperLeaks(es: seq<Event>)
    requires IsRun(INITIAL, es)
    ensures var s := Run(INITIAL, es);
            && Leakless(s) && |s.alive| <= 1
            && (s.stops == {} && (s.closed || (s.handles == {} && s.armed == {} && s.fired == {})) ==> s.alive == {})
  {
    RunIsLeakless(INITIAL, es);
    var s := Run(INITIAL, es);
    if s.process.Some? {
      assert s.alive <= {s.process.value};
      if s.alive != {} {
        assert s.alive == {s.process.value};
      }
    } else {
      assert s.alive == {};
    }
  }

  // ---------------------------------------------------------------------------------
  // Whom a stop hits

  /** Carrying out the stop would end the stream of somebody subscribed. */
  predicate StopHits(s: State, p: nat) {
    p in s.alive && s.subscribers != {}
  }

  /** Somebody subscribed was not yet known when the stop was decided. */
  predicate Newcomer(s: State, p: nat)
    requires p in s.decided
  {
    exists v :: v in s.subscribers && v !in s.decided[p]
  }

  /**
   In every state reached while the session is open: a pending stop of a live helper hits a
   viewer exactly when one that came after the decision is still subscribed.
   */
  lemma StopHitsNewcomers(es: seq<Event>, p: nat)
    requires IsRun(INITIAL, es) && !Run(INITIAL, es).closed && p in Run(INITIAL, es).stops
    ensures var s := Run(INITIAL, es);
            && p in s.decided
            && (StopHits(s, p) <==> p in s.alive && Newcomer(s, p))
            && (s.seen.Keys == s.decided[p] ==> !StopHits(s, p))
  {
    RunIsLeakless(INITIAL, es);
    var s := Run(INITIAL, es);
    if s.subscribers != {} {
      var v :| v in s.subscribers;
      assert v !in s.decided[p];
    }
  }

  /** After a decision, nobody is hit as long as nobody new comes. */
  lemma QuietStopHitsNobody(s: State, p: nat, es: seq<Event>)
    requires StopsPredateViewers(s) && !s.closed && p in s.stops && s.seen.Keys == s.decided[p]
    requires IsRun(s, es) && forall i | 0 <= i < |es| :: !es[i].Acquire?
    ensures !StopHits(Run(s, es), p)
  {
    assert s.subscribers == {};
    StaysEmpty(s, es);
  }

  lemma {:induction false} StaysEmpty(s: State, es: seq<Event>)
    requires s.subscribers == {} && IsRun(s, es) && forall i | 0 <= i < |es| :: !es[i].Acquire?
    ensures Run(s, es).subscribers == {}
    decreases |es|
  {
    if es != [] {
      StaysEmpty(Step(s, es[0]), es[1..]);
    }
  }
}
