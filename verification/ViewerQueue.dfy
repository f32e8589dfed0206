/**
 One viewer's bounded queue. A writer (a pump, or whoever closes the subscription) offers
 items; when the queue is full it removes the oldest and tries once more, as three separate
 steps between which the viewer may take items and other writers may offer theirs. Items,
 end marks among them, are numbered in the order they are offered; a viewer that joins a
 running stream is first offered the preamble, as item 0.
 */
module ViewerQueue {
  const CAPACITY: nat := 32

  /** The item a writer is in the middle of offering. */
  datatype Held = FoundFull(item: nat) | MadeRoom(item: nat)

  datatype Queue = Queue(waiting: seq<nat>, taken: seq<nat>, offered: nat, held: map<nat, Held>, ends: set<nat>)

  const UNUSED := Queue([], [], 0, map[], {})

  datatype Event =
    | Put(writer: nat, end: bool)
    | MakeRoom(writer: nat)
    | PutAgain(writer: nat)
    | Take

  /** The viewer stops at an end mark. */
  predicate Stopped(q: Queue) {
    q.taken != [] && q.taken[|q.taken| - 1] in q.ends
  }

  predicate Enabled(q: Queue, e: Event) {
    match e
    case Put(w, _) => w !in q.held
    case MakeRoom(w) => w in q.held && q.held[w].FoundFull?
    case PutAgain(w) => w in q.held && q.held[w].MadeRoom?
    case Take => q.waiting != [] && !Stopped(q)
  }

  function Step(q: Queue, e: Event): Queue
    requires Enabled(q, e)
  {
    match e
    case Put(w, end) =>
      var p := q.(offered := q.offered + 1, ends := if end then q.ends + {q.offered} else q.ends);
      if |q.waiting| < CAPACITY
      then p.(waiting := q.waiting + [q.offered])
      else p.(held := q.held[w := FoundFull(q.offered)])
    case MakeRoom(w) =>
      if q.waiting == [] then q.(held := q.held - {w})
      else q.(waiting := q.waiting[1..], held := q.held[w := MadeRoom(q.held[w].item)])
    case PutAgain(w) =>
      if |q.waiting| < CAPACITY
      then q.(waiting := q.waiting + [q.held[w].item], held := q.held - {w})
      else q.(held := q.held - {w})
    case Take => q.(taken := q.taken + [q.waiting[0]], waiting := q.waiting[1..])
  }

  predicate IsRun(q: Queue, es: seq<Event>)
    decreases |es|
  {
    es != [] ==> Enabled(q, es[0]) && IsRun(Step(q, es[0]), es[1..])
  }

  function Run(q: Queue, es: seq<Event>): Queue
    requires IsRun(q, es)
    decreases |es|
  {
    if es == [] then q else Run(Step(q, es[0]), es[1..])
  }

  // ---------------------------------------------------------------------------------
  // Any number of writers

  /** What was taken and what waits, in this order. */
  function All(q: Queue): seq<nat> {
    q.taken + q.waiting
  }

  predicate Distinct(s: seq<nat>) {
    forall i, j | 0 <= i < j < |s| :: s[i] != s[j]
  }

  /** At most 32 wait; no item is in two places; nothing is taken behind an end mark. */
  predicate Sound(q: Queue) {
    && |q.waiting| <= CAPACITY
    && Distinct(All(q))
    && (forall i | 0 <= i < |All(q)| :: All(q)[i] < q.offered)
    && (forall w | w in q.held :: q.held[w].item < q.offered && q.held[w].item !in All(q))
    && (forall w, x | w in q.held && x in q.held && w != x :: q.held[w].item != q.held[x].item)
    && (forall x | x in q.ends :: x < q.offered)
    && (forall i | 0 <= i < |q.taken| - 1 :: q.taken[i] !in q.ends)
  }

  lemma PutKeepsSound(q: Queue, e: Event)
    requires Sound(q) && e.Put? && Enabled(q, e)
    ensures Sound(Step(q, e))
  {
    assert forall i | 0 <= i < |q.taken| :: q.taken[i] == All(q)[i];
    if |q.waiting| < CAPACITY {
      assert All(Step(q, e)) == All(q) + [q.offered];
    }
  }

  lemma MakeRoomKeepsSound(q: Queue, e: Event)
    requires Sound(q) && e.MakeRoom? && Enabled(q, e)
    ensures Sound(Step(q, e))
  {
    if q.waiting != [] {
      assert All(Step(q, e)) == All(q)[..|q.taken|] + All(q)[|q.taken| + 1..];
    }
  }

  lemma PutAgainKeepsSound(q: Queue, e: Event)
    requires Sound(q) && e.PutAgain? && Enabled(q, e)
    ensures Sound(Step(q, e))
  {
    if |q.waiting| < CAPACITY {
      assert All(Step(q, e)) == All(q) + [q.held[e.writer].item];
    }
  }

  lemma TakeKeepsSound(q: Queue)
    requires Sound(q) && Enabled(q, Take)
    ensures Sound(Step(q, Take))
  {
    assert All(Step(q, Take)) == All(q);
  }

  lemma StepKeepsSound(q: Queue, e: Event)
    requires Sound(q) && Enabled(q, e)
    ensures Sound(Step(q, e))
  {
    match e
    case Put(_, _) => PutKeepsSound(q, e);
    case MakeRoom(_) => MakeRoomKeepsSound(q, e);
    case PutAgain(_) => PutAgainKeepsSound(q, e);
    case Take => TakeKeepsSound(q);
  }

  lemma {:induction false} RunKeepsSound(q: Queue, es: seq<Event>)
    requires Sound(q) && IsRun(q, es)
    ensures Sound(Run(q, es))
    decreases |es|
  {
    if es != [] {
      StepKeepsSound(q, es[0]);
      RunKeepsSound(Step(q, es[0]), es[1..]);
    }
  }

  /**
   Whatever the writers do and however they interleave: at most 32 items wait, none is taken
   twice or both taken and waiting, and nothing is taken behind an end mark.
   */
  lemma EachItemOnce(es: seq<Event>)
    requires IsRun(UNUSED, es)
    ensures var q := Run(UNUSED, es);
            && |q.waiting| <= 32 && Distinct(q.taken) && Distinct(q.waiting)
            && (forall x | x in q.taken :: x < q.offered && x !in q.waiting)
            && (forall i | 0 <= i < |q.taken| - 1 :: q.taken[i] !in q.ends)
  {
    RunKeepsSound(UNUSED, es);
    var q := Run(UNUSED, es);
    assert forall i | 0 <= i < |q.taken| :: q.taken[i] == All(q)[i];
    assert forall i | 0 <= i < |q.waiting| :: q.waiting[i] == All(q)[|q.taken| + i];
  }

  lemma {:induction false} EndsStay(q: Queue, es: seq<Event>, x: nat)
    requires x in q.ends && IsRun(q, es)
    ensures x in Run(q, es).ends
    decreases |es|
  {
    if es != [] {
      EndsStay(Step(q, es[0]), es[1..], x);
    }
  }

  /** Once an end mark is taken it is the last item taken, whatever was offered before or behind it. */
  lemma EndMarkStops(es: seq<Event>, writer: nat, more: seq<Event>)
    requires IsRun(UNUSED, es) && Enabled(Run(UNUSED, es), Put(writer, true))
    requires IsRun(Step(Run(UNUSED, es), Put(writer, true)), more)
    ensures var q, mark := Run(Step(Run(UNUSED, es), Put(writer, true)), more), Run(UNUSED, es).offered;
            mark in q.taken ==> q.taken[|q.taken| - 1] == mark && !Enabled(q, Take)
  {
    var p := Step(Run(UNUSED, es), Put(writer, true));
    var q, mark := Run(p, more), Run(UNUSED, es).offered;
    RunKeepsSound(UNUSED, es);
    StepKeepsSound(Run(UNUSED, es), Put(writer, true));
    RunKeepsSound(p, more);
    EndsStay(p, more, mark);
    if mark in q.taken {
      var i :| 0 <= i < |q.taken| && q.taken[i] == mark;
      assert i == |q.taken| - 1;
    }
  }

  // ---------------------------------------------------------------------------------
  // Order

  predicate Increasing(s: seq<nat>) {
    forall i, j | 0 <= i < j < |s| :: s[i] < s[j]
  }

  /** A later item got in while the writer was making room for this one. */
  predicate Overtaken(q: Queue, e: Event) {
    && e.PutAgain? && e.writer in q.held && |q.waiting| < CAPACITY
    && exists i :: 0 <= i < |All(q)| && All(q)[i] > q.held[e.writer].item
  }

  lemma Appended(s: seq<nat>, item: nat)
    requires Increasing(s) && item !in s
    ensures Increasing(s + [item]) <==> forall i | 0 <= i < |s| :: s[i] <= item
  {
    if i :| 0 <= i < |s| && s[i] > item {
      assert (s + [item])[i] > (s + [item])[|s|];
    }
  }

  /** A step puts items out of order exactly when it puts back an overtaken one. */
  lemma StepKeepsOrder(q: Queue, e: Event)
    requires Sound(q) && Increasing(All(q)) && Enabled(q, e)
    ensures Increasing(All(Step(q, e))) <==> !Overtaken(q, e)
  {
    var all, q' := All(q), Step(q, e);
    match e
    case Put(_, _) =>
      if |q.waiting| < CAPACITY {
        assert All(q') == all + [q.offered];
      }
    case MakeRoom(_) =>
      if q.waiting != [] {
        assert All(q') == all[..|q.taken|] + all[|q.taken| + 1..];
      }
    case PutAgain(w) =>
      if |q.waiting| < CAPACITY {
        assert All(q') == all + [q.held[w].item];
        Appended(all, q.held[w].item);
      }
    case Take => assert All(q') == all;
  }

  predicate AlwaysInOrder(q: Queue, es: seq<Event>)
    requires IsRun(q, es)
    decreases |es|
  {
    Increasing(All(q)) && (es != [] ==> AlwaysInOrder(Step(q, es[0]), es[1..]))
  }

  predicate NeverOvertaken(q: Queue, es: seq<Event>)
    requires IsRun(q, es)
    decreases |es|
  {
    es != [] ==> !Overtaken(q, es[0]) && NeverOvertaken(Step(q, es[0]), es[1..])
  }

  /** A viewer sees items in offer order throughout a run if and only if no writer is overtaken in it. */
  lemma {:induction false} OrderIsExact(q: Queue, es: seq<Event>)
    requires Sound(q) && Increasing(All(q)) && IsRun(q, es)
    ensures AlwaysInOrder(q, es) <==> NeverOvertaken(q, es)
    decreases |es|
  {
    if es != [] {
      var q' := Step(q, es[0]);
      StepKeepsSound(q, es[0]);
      StepKeepsOrder(q, es[0]);
      if Increasing(All(q')) {
        OrderIsExact(q', es[1..]);
      }
    }
  }

  /** No writer starts an offer while another is in the middle of one. */
  predicate OneAtATime(q: Queue, es: seq<Event>)
    requires IsRun(q, es)
    decreases |es|
  {
    es != [] ==> (es[0].Put? ==> q.held == map[]) && OneAtATime(Step(q, es[0]), es[1..])
  }

  /** Whoever is in the middle of an offer is offering the newest item. */
  predicate HoldsLatest(q: Queue) {
    forall w | w in q.held :: q.held[w].item + 1 == q.offered
  }

  lemma {:induction false} OneAtATimeIsNeverOvertaken(q: Queue, es: seq<Event>)
    requires Sound(q) && HoldsLatest(q) && IsRun(q, es) && OneAtATime(q, es)
    ensures NeverOvertaken(q, es)
    decreases |es|
  {
    if es != [] {
      StepKeepsSound(q, es[0]);
      OneAtATimeIsNeverOvertaken(Step(q, es[0]), es[1..]);
    }
  }

  /** With one writer at a time a viewer takes items in the order they were offered. */
  lemma ViewerSeesOrder(es: seq<Event>)
    requires IsRun(UNUSED, es) && OneAtATime(UNUSED, es)
    ensures AlwaysInOrder(UNUSED, es)
  {
    OneAtATimeIsNeverOvertaken(UNUSED, es);
    OrderIsExact(UNUSED, es);
  }

  // ---------------------------------------------------------------------------------
  // One writer: what is kept

  /** Every one of the 32 newest items that was not taken is waiting, and nothing else is. */
  ghost predicate HoldsNewest(q: Queue) {
    forall k :: k in q.waiting <==> k !in q.taken && 0 <= k < q.offered <= k + CAPACITY
  }

  /** How many items the writer is done offering. */
  function Settled(q: Queue): nat {
    if 0 in q.held then q.held[0].item else q.offered
  }

  /**
   The waiting items are the last ones before the item being offered, without a break, and
   whatever the queue let go of short of its capacity was taken.
   */
  ghost predicate Tidy(q: Queue) {
    var n, w := Settled(q), |q.waiting|;
    && q.held.Keys <= {0} && q.ends == {}
    && w <= CAPACITY && w <= n
    && (0 in q.held ==> q.offered == n + 1 && if q.held[0].FoundFull? then w == CAPACITY else w < CAPACITY)
    && (forall i | 0 <= i < w :: q.waiting[i] == n - w + i)
    && (forall i | 0 <= i < |q.taken| :: q.taken[i] < n - w)
    && (forall k: nat | k < n - w && q.offered <= k + CAPACITY :: k in q.taken)
  }

  /** The viewer takes nothing between the writer finding the queue full and making room. */
  predicate Undisturbed(q: Queue, e: Event) {
    match e
    case Put(w, end) => w == 0 && !end
    case Take => 0 in q.held ==> q.held[0].MadeRoom?
    case _ => true
  }

  lemma StepKeepsTidy(q: Queue, e: Event)
    requires Tidy(q) && Enabled(q, e) && Undisturbed(q, e)
    ensures Tidy(Step(q, e))
  {
  }

  lemma TidyHoldsNewest(q: Queue)
    requires Tidy(q) && q.held == map[]
    ensures HoldsNewest(q)
  {
    forall k | k !in q.taken && 0 <= k < q.offered <= k + CAPACITY
      ensures k in q.waiting
    {
      assert q.waiting[k - (q.offered - |q.waiting|)] == k;
    }
  }

  predicate UndisturbedRun(q: Queue, es: seq<Event>)
    requires IsRun(q, es)
    decreases |es|
  {
    es != [] ==> Undisturbed(q, es[0]) && UndisturbedRun(Step(q, es[0]), es[1..])
  }

  /**
   Drop-oldest: in every run of one writer that is not disturbed between finding the queue
   full and making room, the queue holds exactly the 32 newest items not yet taken whenever
   the writer is between offers.
   */
  lemma {:induction false} QueueHoldsNewest(q: Queue, es: seq<Event>)
    requires Tidy(q) && IsRun(q, es) && UndisturbedRun(q, es)
    ensures Tidy(Run(q, es)) && (Run(q, es).held == map[] ==> HoldsNewest(Run(q, es)))
    decreases |es|
  {
    if es != [] {
      StepKeepsTidy(q, es[0]);
      QueueHoldsNewest(Step(q, es[0]), es[1..]);
    } else if q.held == map[] {
      TidyHoldsNewest(q);
    }
  }

  // ---------------------------------------------------------------------------------
  // One offer to a full queue, disturbed in every possible way

  /** No end mark has been taken or is waiting. */
  predicate NoEnd(q: Queue) {
    forall x | x in q.ends :: x !in q.taken && x !in q.waiting
  }

  /** The viewer takes `k` items. */
  function Takes(q: Queue, k: nat): (r: Queue)
    requires k <= |q.waiting| && NoEnd(q)
    ensures r == q.(taken := q.taken + q.waiting[..k], waiting := q.waiting[k..])
  {
    if k == 0 then q
    else
      var p := Takes(q, k - 1);
      Step(p, Take)
  }

  /** A full queue whose writer is between offers. */
  ghost predicate FullAndIdle(q: Queue) {
    Tidy(q) && q.held == map[] && |q.waiting| == CAPACITY
  }

  predicate Possible(k: nat, m: nat) {
    if k == CAPACITY then m == 0 else k + 1 + m <= CAPACITY
  }

  /** `k` takes between finding the queue full and making room, and `m` more before the second try. */
  function Interrupted(q: Queue, end: bool, k: nat, m: nat): Queue
    requires |q.waiting| == CAPACITY && 0 !in q.held && NoEnd(q) && q.offered !in q.taken && q.offered !in q.waiting
    requires Possible(k, m)
  {
    var emptied := Takes(Step(q, Put(0, end)), k);
    var room := Step(emptied, MakeRoom(0));
    if k == CAPACITY then room else Step(Takes(room, m), PutAgain(0))
  }

  lemma TidyIsFresh(q: Queue)
    requires Tidy(q) && q.held == map[]
    ensures NoEnd(q) && q.offered !in q.taken && q.offered !in q.waiting
  {
  }

  /** What was taken and what waits after such an offer. */
  ghost predicate IsInterrupted(q: Queue, r: Queue, k: nat, m: nat)
    requires |q.waiting| == CAPACITY && Possible(k, m)
  {
    var w := q.waiting;
    && r.offered == q.offered + 1
    && r.taken == q.taken + w[..k] + (if k == CAPACITY then [] else w[k + 1..k + 1 + m])
    && r.waiting == if k == CAPACITY then [] else w[k + 1 + m..] + [q.offered]
  }

  lemma DisturbedIs(q: Queue, p: Queue, r: Queue, k: nat, m: nat)
    requires |q.waiting| == CAPACITY && k + 1 + m <= CAPACITY
    requires p.taken == q.taken && p.waiting == q.waiting && p.offered == q.offered + 1
    requires p.held == q.held[0 := FoundFull(q.offered)] && 0 !in q.held && NoEnd(p)
    requires NoEnd(Step(Takes(p, k), MakeRoom(0)))
    requires m <= |Step(Takes(p, k), MakeRoom(0)).waiting|
    requires r == Step(Takes(Step(Takes(p, k), MakeRoom(0)), m), PutAgain(0))
    ensures IsInterrupted(q, r, k, m) && r.held == q.held
  {
    RoomMade(p, k);
    SliceAgain(q.waiting, k, m);
  }

  lemma InterruptedIs(q: Queue, end: bool, k: nat, m: nat)
    requires |q.waiting| == CAPACITY && 0 !in q.held && NoEnd(q) && q.offered !in q.taken && q.offered !in q.waiting && Possible(k, m)
    ensures IsInterrupted(q, Interrupted(q, end, k, m), k, m) && Interrupted(q, end, k, m).held == q.held
  {
    if k == CAPACITY {
    } else {
      var p := Step(q, Put(0, end));
      RoomMade(p, k);
      DisturbedIs(q, p, Interrupted(q, end, k, m), k, m);
    }
  }

  lemma RoomMade(q: Queue, k: nat)
    requires 0 in q.held && q.held[0].FoundFull? && k < |q.waiting| && NoEnd(q)
    ensures var r := Step(Takes(q, k), MakeRoom(0));
            && NoEnd(r)
            && r == q.(taken := q.taken + q.waiting[..k], waiting := q.waiting[k..][1..],
                       held := q.held[0 := MadeRoom(q.held[0].item)])
  {
  }

  lemma SliceAgain(w: seq<nat>, k: nat, m: nat)
    requires k + 1 + m <= |w|
    ensures w[k..][1..] == w[k + 1..]
    ensures w[k + 1..][..m] == w[k + 1..k + 1 + m] && w[k + 1..][m..] == w[k + 1 + m..]
  {
  }

  lemma InSlice(s: seq<nat>, base: nat, a: nat, b: nat, j: nat)
    requires a <= b <= |s| && forall i | 0 <= i < |s| :: s[i] == base + i
    ensures j in s[a..b] <==> base + a <= j < base + b
  {
    if base + a <= j < base + b {
      assert s[a..b][j - base - a] == j;
    }
  }

  /** Where the items of a full queue end up, and the one offered behind them. */
  lemma Placed(taken: seq<nat>, w: seq<nat>, base: nat, k: nat, m: nat, j: nat)
    requires |w| == CAPACITY && k + 1 + m <= CAPACITY && forall i | 0 <= i < |w| :: w[i] == base + i
    requires j !in taken
    ensures j in taken + w[..k] + w[k + 1..k + 1 + m] <==> base <= j < base + k || base + k < j <= base + k + m
    ensures j in w[k + 1 + m..] + [base + CAPACITY] <==> base + k + m < j <= base + CAPACITY
  {
    InSlice(w, base, 0, k, j);
    InSlice(w, base, k + 1, k + 1 + m, j);
    InSlice(w, base, k + 1 + m, CAPACITY, j);
    assert w[0..k] == w[..k] && w[k + 1 + m..CAPACITY] == w[k + 1 + m..];
  }

  /** The item that is oldest when room is made, or the one being offered if there is none. */
  function Lost(q: Queue, k: nat): int {
    q.offered - CAPACITY + k
  }

  lemma OfferPlaces(q: Queue, r: Queue, k: nat, m: nat, j: nat)
    requires FullAndIdle(q) && Possible(k, m) && IsInterrupted(q, r, k, m) && q.offered <= j + CAPACITY
    ensures j in r.taken <==> j < Lost(q, k) || Lost(q, k) < j <= Lost(q, k) + m
    ensures j in r.waiting <==> Lost(q, k) + m < j <= q.offered
  {
    assert j !in q.taken;
    if k < CAPACITY {
      Placed(q.taken, q.waiting, q.offered - CAPACITY, k, m, j);
    } else {
      InSlice(q.waiting, q.offered - CAPACITY, 0, CAPACITY, j);
      assert q.waiting[0..CAPACITY] == q.waiting[..CAPACITY];
    }
  }

  /** A disturbed offer loses exactly one of the 33 newest items, and the number of takes says which. */
  lemma OfferLosesOne(q: Queue, end: bool, k: nat, m: nat, j: nat)
    requires FullAndIdle(q) && Possible(k, m) && q.offered <= j + CAPACITY && j <= q.offered
    ensures NoEnd(q) && q.offered !in q.taken && q.offered !in q.waiting
    ensures var r := Interrupted(q, end, k, m); j in r.taken || j in r.waiting <==> j != Lost(q, k)
  {
    TidyIsFresh(q);
    InterruptedIs(q, end, k, m);
    OfferPlaces(q, Interrupted(q, end, k, m), k, m, j);
  }

  lemma NewestAreHeld(q: Queue, r: Queue, k: nat, m: nat)
    requires FullAndIdle(q) && Possible(k, m) && IsInterrupted(q, r, k, m)
    ensures HoldsNewest(r) <==> k == 0
  {
    if k == 0 {
      forall j: nat | q.offered <= j + CAPACITY
        ensures j in r.waiting <==> j !in r.taken && j < r.offered <= j + CAPACITY
      {
        OfferPlaces(q, r, k, m, j);
      }
    } else {
      OfferPlaces(q, r, k, m, Lost(q, k));
    }
  }

  /**
   Exactly when drop-oldest survives a disturbance: the queue holds the newest items not yet
   taken if and only if the viewer took nothing before room was made.
   */
  lemma DropOldestIsExact(q: Queue, end: bool, k: nat, m: nat)
    requires FullAndIdle(q) && Possible(k, m)
    ensures NoEnd(q) && q.offered !in q.taken && q.offered !in q.waiting
    ensures HoldsNewest(Interrupted(q, end, k, m)) <==> k == 0
  {
    TidyIsFresh(q);
    InterruptedIs(q, end, k, m);
    NewestAreHeld(q, Interrupted(q, end, k, m), k, m);
  }

  /** The item offered, be it the mark that ends the stream, arrives unless all 32 were taken before room was made. */
  lemma OfferedArrives(q: Queue, end: bool, k: nat, m: nat)
    requires FullAndIdle(q) && Possible(k, m)
    ensures NoEnd(q) && q.offered !in q.taken && q.offered !in q.waiting
    ensures q.offered in Interrupted(q, end, k, m).waiting <==> k < CAPACITY
  {
    TidyIsFresh(q);
    InterruptedIs(q, end, k, m);
  }

  // ---------------------------------------------------------------------------------
  // The preamble, and two pumps

  /** An undisturbed offer. */
  function Offer(q: Queue): (r: Queue)
    requires q.held == map[] && |q.waiting| <= CAPACITY
    ensures r.held == map[] && |r.waiting| <= CAPACITY
  {
    var p := Step(q, Put(0, false));
    if p.held == map[] then p else Step(Step(p, MakeRoom(0)), PutAgain(0))
  }

  function Offers(q: Queue, n: nat): (r: Queue)
    requires q.held == map[] && |q.waiting| <= CAPACITY
    ensures r.held == map[] && |r.waiting| <= CAPACITY
  {
    if n == 0 then q else Offer(Offers(q, n - 1))
  }

  lemma OfferKeepsTidy(q: Queue)
    requires Tidy(q) && q.held == map[]
    ensures Tidy(Offer(q)) && Offer(q).offered == q.offered + 1 && Offer(q).taken == q.taken
    ensures |Offer(q).waiting| == if |q.waiting| < CAPACITY then |q.waiting| + 1 else CAPACITY
  {
    var p := Step(q, Put(0, false));
    StepKeepsTidy(q, Put(0, false));
    if p.held != map[] {
      StepKeepsTidy(p, MakeRoom(0));
      StepKeepsTidy(Step(p, MakeRoom(0)), PutAgain(0));
    }
  }

  lemma {:induction false} OffersKeepTidy(q: Queue, n: nat)
    requires Tidy(q) && q.held == map[]
    ensures Tidy(Offers(q, n)) && Offers(q, n).offered == q.offered + n && Offers(q, n).taken == q.taken
    ensures |Offers(q, n).waiting| == if |q.waiting| + n < CAPACITY then |q.waiting| + n else CAPACITY
  {
    if n > 0 {
      OffersKeepTidy(q, n - 1);
      OfferKeepsTidy(Offers(q, n - 1));
    }
  }

  /** The preamble is the first item a viewer takes exactly when at most 31 chunks came before its first take. */
  lemma PreambleComesFirst(chunks: nat)
    ensures var q := Offers(Offer(UNUSED), chunks);
            Enabled(q, Take) && (Step(q, Take).taken == [0] <==> chunks <= 31)
  {
    OfferKeepsTidy(UNUSED);
    OffersKeepTidy(Offer(UNUSED), chunks);
    FirstTaken(Offers(Offer(UNUSED), chunks));
  }

  lemma FirstTaken(q: Queue)
    requires Tidy(q) && q.held == map[] && q.taken == [] && q.waiting != []
    ensures Enabled(q, Take) && Step(q, Take).taken == [q.offered - |q.waiting|]
  {
    assert q.waiting[0] == q.offered - |q.waiting|;
  }

  lemma {:induction false} RunAppend(q: Queue, a: seq<Event>, b: seq<Event>)
    requires IsRun(q, a) && IsRun(Run(q, a), b)
    ensures IsRun(q, a + b) && Run(q, a + b) == Run(Run(q, a), b)
    decreases |a|
  {
    if a == [] {
      assert a + b == b;
    } else {
      assert (a + b)[1..] == a[1..] + b;
      RunAppend(Step(q, a[0]), a[1..], b);
    }
  }

  lemma TwoSteps(q: Queue, e: Event, f: Event)
    requires Enabled(q, e) && Enabled(Step(q, e), f)
    ensures IsRun(q, [e, f]) && Run(q, [e, f]) == Step(Step(q, e), f)
  {
    assert [e, f][1..] == [f] && [f][1..] == [];
    assert IsRun(Step(Step(q, e), f), []);
    assert IsRun(Step(q, e), [f]) && Run(Step(q, e), [f]) == Step(Step(q, e), f);
  }

  /** Two writers find the queue full one after the other, and the second is done first. */
  lemma TwoWritersSwap(q: Queue, a: nat, b: nat) returns (es: seq<Event>)
    requires |q.waiting| == CAPACITY && a !in q.held && b !in q.held && a != b
    ensures es == [Put(a, false), Put(b, false)] + [MakeRoom(b), PutAgain(b)] + [MakeRoom(a), PutAgain(a)]
    ensures IsRun(q, es) && Run(q, es).waiting == q.waiting[2..] + [q.offered + 1] + [q.offered]
  {
    TwoSteps(q, Put(a, false), Put(b, false));
    var both := Step(Step(q, Put(a, false)), Put(b, false));
    TwoSteps(both, MakeRoom(b), PutAgain(b));
    var one := Step(Step(both, MakeRoom(b)), PutAgain(b));
    assert one.waiting == q.waiting[1..] + [q.offered + 1];
    assert one.waiting[1..] == q.waiting[2..] + [q.offered + 1];
    TwoSteps(one, MakeRoom(a), PutAgain(a));
    var first, second, third := [Put(a, false), Put(b, false)], [MakeRoom(b), PutAgain(b)], [MakeRoom(a), PutAgain(a)];
    RunAppend(q, first, second);
    RunAppend(q, first + second, third);
    es := first + second + third;
  }

  // ---------------------------------------------------------------------------------
  // Which writers keep the order

  predicate PutsBy(es: seq<Event>, writers: set<nat>) {
    forall i | 0 <= i < |es| && es[i].Put? :: es[i].writer in writers
  }

  /** Only one writer can be in the middle of an offer. */
  lemma {:induction false} OneWriterIsOneAtATime(q: Queue, es: seq<Event>, w: nat)
    requires q.held.Keys <= {w} && IsRun(q, es) && PutsBy(es, {w})
    ensures OneAtATime(q, es)
    decreases |es|
  {
    if es != [] {
      if es[0].Put? {
        assert w !in q.held;
      }
      OneWriterIsOneAtATime(Step(q, es[0]), es[1..], w);
    }
  }

  /** `n` items put into a queue that has room for them. */
  lemma Fill(w: nat, n: nat) returns (es: seq<Event>)
    requires n <= CAPACITY
    ensures IsRun(UNUSED, es) && PutsBy(es, {w})
    ensures var q := Run(UNUSED, es); |q.waiting| == n && q.held == map[]
  {
    es := [];
    for i := 0 to n
      invariant IsRun(UNUSED, es) && PutsBy(es, {w})
      invariant var q := Run(UNUSED, es); |q.waiting| == i && q.held == map[]
    {
      var q := Run(UNUSED, es);
      assert [Put(w, false)][1..] == [];
      assert IsRun(Step(q, Put(w, false)), []);
      RunAppend(UNUSED, es, [Put(w, false)]);
      es := es + [Put(w, false)];
    }
  }

  lemma {:induction false} OrderedAtLast(q: Queue, es: seq<Event>)
    requires IsRun(q, es) && AlwaysInOrder(q, es)
    ensures Increasing(All(Run(q, es)))
    decreases |es|
  {
    if es != [] {
      OrderedAtLast(Step(q, es[0]), es[1..]);
    }
  }

  lemma SwappedIsDisordered(q: Queue, w: seq<nat>, x: nat)
    requires q.waiting == w + [x + 1] + [x]
    ensures !Increasing(All(q))
  {
    var i := |q.taken| + |w|;
    assert All(q)[i] == x + 1 && All(q)[i + 1] == x;
  }

  lemma TwoWritersBreakOrder(a: nat, b: nat, writers: set<nat>) returns (es: seq<Event>)
    requires a in writers && b in writers && a != b
    ensures IsRun(UNUSED, es) && PutsBy(es, writers) && !AlwaysInOrder(UNUSED, es)
  {
    var fill := Fill(a, CAPACITY);
    var q := Run(UNUSED, fill);
    var swap := TwoWritersSwap(q, a, b);
    RunAppend(UNUSED, fill, swap);
    es := fill + swap;
    SwappedIsDisordered(Run(UNUSED, es), q.waiting[2..], q.offered);
    if AlwaysInOrder(UNUSED, es) {
      OrderedAtLast(UNUSED, es);
    }
  }

  lemma OneWriterKeepsOrder(es: seq<Event>, writers: set<nat>)
    requires IsRun(UNUSED, es) && PutsBy(es, writers) && forall a, b | a in writers && b in writers :: a == b
    ensures AlwaysInOrder(UNUSED, es)
  {
    var w := 0;
    if writers != {} {
      w :| w in writers;
    }
    OneWriterIsOneAtATime(UNUSED, es, w);
    ViewerSeesOrder(es);
  }

  /**
   Order is exact in the writers: items stay in the order they were offered, in every run of
   these writers, whatever the viewer does, if and only if they are not two.
   */
  lemma WritersAreExact(writers: set<nat>)
    ensures (forall es | IsRun(UNUSED, es) && PutsBy(es, writers) :: AlwaysInOrder(UNUSED, es))
            <==> forall a, b | a in writers && b in writers :: a == b
  {
    if a, b :| a in writers && b in writers && a != b {
      var es := TwoWritersBreakOrder(a, b, writers);
    } else {
      forall es | IsRun(UNUSED, es) && PutsBy(es, writers)
        ensures AlwaysInOrder(UNUSED, es)
      {
        OneWriterKeepsOrder(es, writers);
      }
    }
  }
}
