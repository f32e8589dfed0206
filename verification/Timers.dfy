/** The idle timer of a session and the session's reference to it. */
module Timers {
  import opened Lifecycle

  /** The one timer that may be armed is the one the session could cancel. */
  predicate Named(s: State) {
    s.armed <= if s.idleTimer.Some? then {s.idleTimer.value} else {}
  }

  /** A timer that fired earlier takes the lock while a newer one is armed. */
  predicate Late(s: State, e: Event) {
    e.StopIfIdle? && s.armed != {}
  }

  /** A step loses the reference to an armed timer exactly when it is that of a late timer. */
  lemma StepKeepsNamed(s: State, e: Event)
    requires Named(s) && Enabled(s, e)
    ensures Named(Step(s, e)) <==> !Late(s, e)
  {
  }

  predicate AlwaysNamed(s: State, es: seq<Event>)
    requires IsRun(s, es)
    decreases |es|
  {
    Named(s) && (es != [] ==> AlwaysNamed(Step(s, es[0]), es[1..]))
  }

  predicate NeverLate(s: State, es: seq<Event>)
    requires IsRun(s, es)
    decreases |es|
  {
    es != [] ==> !Late(s, es[0]) && NeverLate(Step(s, es[0]), es[1..])
  }

  /** In every state of a run the armed timer can be cancelled if and only if no timer is late in it. */
  lemma {:induction false} NamedIsExact(s: State, es: seq<Event>)
    requires Named(s) && IsRun(s, es)
    ensures AlwaysNamed(s, es) <==> NeverLate(s, es)
    decreases |es|
  {
    if es != [] {
      StepKeepsNamed(s, es[0]);
      if !Late(s, es[0]) {
        NamedIsExact(Step(s, es[0]), es[1..]);
      }
    }
  }

  lemma {:induction false} RunKeepsNamed(s: State, es: seq<Event>)
    requires Named(s) && IsRun(s, es) && NeverLate(s, es)
    ensures Named(Run(s, es))
    decreases |es|
  {
    if es != [] {
      StepKeepsNamed(s, es[0]);
      RunKeepsNamed(Step(s, es[0]), es[1..]);
    }
  }

  /** Without a late timer, a viewer who comes, and a close, leave no timer armed. */
  lemma AcquireDisarms(es: seq<Event>, e: Event)
    requires IsRun(INITIAL, es) && NeverLate(INITIAL, es)
    requires (e.Acquire? || e.Close?) && Enabled(Run(INITIAL, es), e)
    ensures Step(Run(INITIAL, es), e).armed == {}
  {
    RunKeepsNamed(INITIAL, es);
  }

  /** No timer runs against a viewer. */
  predicate Untimed(s: State) {
    s.subscribers != {} ==> s.armed == {}
  }

  lemma {:induction false} RunKeepsUntimed(s: State, es: seq<Event>)
    requires Named(s) && Untimed(s) && IsRun(s, es) && NeverLate(s, es)
    ensures Untimed(Run(s, es))
    decreases |es|
  {
    if es != [] {
      StepKeepsNamed(s, es[0]);
      RunKeepsUntimed(Step(s, es[0]), es[1..]);
    }
  }

  /** Without a late timer, none is armed as long as anybody is subscribed. */
  lemma ViewersAreUntimed(es: seq<Event>)
    requires IsRun(INITIAL, es) && NeverLate(INITIAL, es)
    ensures var s := Run(INITIAL, es); s.subscribers == {} || s.armed == {}
  {
    RunKeepsUntimed(INITIAL, es);
  }
}
