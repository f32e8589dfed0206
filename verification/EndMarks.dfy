/**
 The end of a viewer's stream: whoever loses it is sent one end mark, so that no iterator waits
 for ever on a queue nobody writes to.
 */
module EndMarks {
  import opened Lifecycle

  /** The pump has the viewer's end mark yet to send. */
  predicate Owes(s: State, p: nat, v: nat) {
    p in s.pumps && s.pumps[p].Ending? && v in s.pumps[p].left
  }

  predicate Ended(s: State, v: nat) {
    v in s.seen && s.seen[v].ended
  }

  /** An unreleased viewer is subscribed, owed an end mark, or has been sent it. */
  ghost predicate Accounted(s: State) {
    forall v | v in s.handles :: v in s.subscribers || Ended(s, v) || exists p :: Owes(s, p, v)
  }

  /** No viewer is two of these, or owed by two pumps. */
  ghost predicate OneMark(s: State) {
    && (forall p, v | Owes(s, p, v) :: v !in s.subscribers && !Ended(s, v))
    && (forall v | v in s.subscribers :: !Ended(s, v))
    && (forall p, q, v | Owes(s, p, v) && Owes(s, q, v) :: p == q)
  }

  /** Everyone the pumps deal with was once handed a subscription. */
  predicate Known(s: State) {
    && s.subscribers <= s.handles <= s.seen.Keys
    && forall p | p in s.pumps :: s.pumps[p].left <= s.seen.Keys
  }

  predicate Runs(s: State, p: nat) {
    p in s.pumps && s.pumps[p].Running?
  }

  /** A helper that has not exited is still being read, and so is some helper while anyone is subscribed. */
  ghost predicate Served(s: State) {
    && (forall p | p in s.alive :: Runs(s, p))
    && (s.subscribers != {} ==> exists p :: Runs(s, p))
  }

  lemma StepKeepsKnown(s: State, e: Event)
    requires Known(s) && Enabled(s, e)
    ensures Known(Step(s, e))
  {
  }

  lemma StepKeepsServed(s: State, e: Event)
    requires Served(s) && Enabled(s, e)
    ensures Served(Step(s, e))
  {
    var s' := Step(s, e);
    if s.subscribers != {} {
      var p :| Runs(s, p);
      assert e != Finish(p) ==> Runs(s', p);
    }
    match e
    case Acquire(v, p, starts) =>
      if !NeedsStart(s) {
        assert Runs(s', s.process.value);
      } else if starts {
        assert Runs(s', p);
      }
    case _ =>
  }

  lemma OthersOwe(s: State, e: Event)
    requires Known(s) && Enabled(s, e) && !e.Finish? && !e.End?
    ensures forall p, v :: Owes(Step(s, e), p, v) <==> Owes(s, p, v)
  {
  }

  lemma OthersKeepAccounted(s: State, e: Event)
    requires Known(s) && Accounted(s) && Enabled(s, e) && !e.Finish? && !e.End?
    ensures Accounted(Step(s, e))
  {
    OthersOwe(s, e);
    var s' := Step(s, e);
    forall v | v in s'.handles
      ensures v in s'.subscribers || Ended(s', v) || exists p :: Owes(s', p, v)
    {
      if v in s.handles && v !in s.subscribers && !Ended(s, v) {
        var p :| Owes(s, p, v);
        assert Owes(s', p, v);
      }
    }
  }

  /** The final block of a pump owes an end mark to everyone it unsubscribes. */
  lemma FinishKeepsAccounted(s: State, p: nat)
    requires Accounted(s) && Enabled(s, Finish(p))
    ensures Accounted(Step(s, Finish(p)))
  {
    var s' := Step(s, Finish(p));
    forall v | v in s'.handles
      ensures Ended(s', v) || exists q :: Owes(s', q, v)
    {
      if v in s.subscribers {
        assert Owes(s', p, v);
      } else if !Ended(s, v) {
        var q :| Owes(s, q, v);
        assert Owes(s', q, v);
      }
    }
  }

  lemma EndKeepsAccounted(s: State, p: nat, u: nat)
    requires Accounted(s) && Enabled(s, End(p, u))
    ensures Accounted(Step(s, End(p, u)))
  {
    var s' := Step(s, End(p, u));
    forall v | v in s'.handles
      ensures v in s'.subscribers || Ended(s', v) || exists q :: Owes(s', q, v)
    {
      if v != u && v !in s.subscribers && !Ended(s, v) {
        var q :| Owes(s, q, v);
        assert Owes(s', q, v);
      }
    }
  }

  lemma OthersKeepOneMark(s: State, e: Event)
    requires Known(s) && OneMark(s) && Enabled(s, e) && !e.Finish? && !e.End?
    ensures OneMark(Step(s, e))
  {
    OthersOwe(s, e);
    var s' := Step(s, e);
    forall v | v in s'.subscribers
      ensures !Ended(s', v)
    {
      assert v in s.subscribers || e.Acquire?;
    }
    forall p, v | Owes(s', p, v)
      ensures v !in s'.subscribers && !Ended(s', v)
    {
      assert Owes(s, p, v) && v in s.pumps[p].left;
    }
  }

  lemma EndKeepsOneMark(s: State, p: nat, v: nat)
    requires OneMark(s) && Enabled(s, End(p, v))
    ensures OneMark(Step(s, End(p, v)))
  {
    var s' := Step(s, End(p, v));
    assert Owes(s, p, v);
    assert forall q, u :: Owes(s', q, u) <==> Owes(s, q, u) && u != v;
    assert forall u :: Ended(s', u) <==> Ended(s, u) || u == v;
  }

  lemma FinishKeepsOneMark(s: State, p: nat)
    requires OneMark(s) && Enabled(s, Finish(p))
    ensures OneMark(Step(s, Finish(p)))
  {
    var s' := Step(s, Finish(p));
    assert forall q, u :: Owes(s', q, u) <==> Owes(s, q, u) || (q == p && u in s.subscribers);
    assert forall u :: Ended(s', u) <==> Ended(s, u);
  }

  ghost predicate Orderly(s: State) {
    Known(s) && Served(s) && Accounted(s) && OneMark(s)
  }

  lemma StepKeepsOrderly(s: State, e: Event)
    requires Orderly(s) && Enabled(s, e)
    ensures Orderly(Step(s, e))
  {
    StepKeepsKnown(s, e);
    StepKeepsServed(s, e);
    match e
    case Finish(p) =>
      FinishKeepsAccounted(s, p);
      FinishKeepsOneMark(s, p);
    case End(p, v) =>
      EndKeepsAccounted(s, p, v);
      EndKeepsOneMark(s, p, v);
    case _ =>
      OthersKeepAccounted(s, e);
      OthersKeepOneMark(s, e);
  }

  lemma {:induction false} RunKeepsOrderly(s: State, es: seq<Event>)
    requires Orderly(s) && IsRun(s, es)
    ensures Orderly(Run(s, es))
    decreases |es|
  {
    if es != [] {
      StepKeepsOrderly(s, es[0]);
      RunKeepsOrderly(Step(s, es[0]), es[1..]);
    }
  }

  /**
   In every interleaving, a viewer that still holds its subscription is subscribed, has been
   sent its end mark, or is owed it by just one pump, which can send it; and is only one of these.
   */
  lemma NobodyIsForgotten(es: seq<Event>, v: nat)
    requires IsRun(INITIAL, es) && v in Run(INITIAL, es).handles
    ensures var s := Run(INITIAL, es);
            && (v in s.subscribers || Ended(s, v) || exists p :: Owes(s, p, v) && Enabled(s, End(p, v)))
            && !(v in s.subscribers && Ended(s, v))
            && (forall p | Owes(s, p, v) :: v !in s.subscribers && !Ended(s, v))
            && (forall p, q | Owes(s, p, v) && Owes(s, q, v) :: p == q)
  {
    RunKeepsOrderly(INITIAL, es);
    var s := Run(INITIAL, es);
    if v !in s.subscribers && !Ended(s, v) {
      var p :| Owes(s, p, v);
      assert Enabled(s, End(p, v));
    }
  }

  /** No pump sends a viewer a second end mark, or one while it is subscribed. */
  lemma MarksAreSentOnce(es: seq<Event>, p: nat, v: nat)
    requires IsRun(INITIAL, es) && Enabled(Run(INITIAL, es), End(p, v))
    ensures !Ended(Run(INITIAL, es), v) && v !in Run(INITIAL, es).subscribers
  {
    RunKeepsOrderly(INITIAL, es);
    assert Owes(Run(INITIAL, es), p, v);
  }

  /** When no pump is running any more and no end mark is owed, every unreleased viewer has been sent its own. */
  lemma StreamsEnd(es: seq<Event>)
    requires IsRun(INITIAL, es)
    requires forall p :: !Runs(Run(INITIAL, es), p)
    requires forall p, v :: !Owes(Run(INITIAL, es), p, v)
    ensures var s := Run(INITIAL, es); s.subscribers == {} && forall v | v in s.handles :: Ended(s, v)
  {
    RunKeepsOrderly(INITIAL, es);
  }

  /** The threads of the helpers, once the helpers have exited. */
  predicate IsPumpStep(e: Event) {
    e.Offer? || e.Finish? || e.End?
  }

  /** While the helpers have exited and somebody waits for an end mark, a pump has a step to take. */
  lemma SomePumpGoesOn(es: seq<Event>, v: nat) returns (e: Event)
    requires IsRun(INITIAL, es)
    requires var s := Run(INITIAL, es); v in s.handles && !Ended(s, v) && s.alive == {}
    ensures IsPumpStep(e) && Enabled(Run(INITIAL, es), e)
  {
    RunKeepsOrderly(INITIAL, es);
    var s := Run(INITIAL, es);
    if v in s.subscribers {
      var p :| Runs(s, p);
      if u :| u in s.pumps[p].left {
        e := Offer(p, u);
      } else {
        e := Finish(p);
      }
    } else {
      var p :| Owes(s, p, v);
      e := End(p, v);
    }
  }
}
