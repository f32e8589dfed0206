/**
 The receiving half of one CS2 channel, as a function on values: the expected 16-bit
 sequence number, the bytes waiting for a reader, and the frames held for reordering.

 Beneath the 16-bit numbers every frame has an absolute index, its position in the list
 of all frames ever sent on the channel. `Tracks` ties the two together.
 */
module Channel {
  import opened Octets

  const MODULUS: nat := 0x1_0000
  const HALF: nat := 0x8000
  const REORDER_LIMIT: nat := 64
  const CHUNK_BYTES: nat := 1024

  datatype Receiver = Receiver(expected: nat, buffer: bytes, held: map<nat, bytes>)

  const FRESH := Receiver(0, [], map[])

  /** The 16-bit sequence number of the frame with this absolute index. */
  function Wrap(k: nat): nat {
    k % 0x1_0000
  }

  /** The next 16-bit sequence number: `(sequence + 1) & 0xFFFF`. */
  function Successor(sequence: nat): nat {
    if sequence == MODULUS - 1 then 0 else sequence + 1
  }

  /** How far `sequence` lies ahead of `expected` on the circle: `(sequence - expected) & 0xFFFF`. */
  function Distance(sequence: nat, expected: nat): int {
    if sequence >= expected then sequence - expected else sequence - expected + MODULUS
  }

  /** On 16-bit numbers the two are the modular operations the masks compute. */
  lemma CircleIsModular(sequence: nat, expected: nat, next: nat, k: nat)
    requires sequence < MODULUS && expected < MODULUS
    ensures Successor(expected) == (expected + 1) % MODULUS
    ensures Distance(sequence, expected) == (sequence - expected) % MODULUS
    ensures Wrap(k) < MODULUS
    ensures Successor(Wrap(next)) == Wrap(next + 1)
    ensures Distance(Wrap(k), Wrap(next)) == (k - next) % MODULUS
  {
  }

  function AppendExpected(r: Receiver, body: bytes): Receiver {
    Receiver(Successor(r.expected), r.buffer + body, r.held)
  }

  function ReleaseExpected(r: Receiver): Receiver
    requires r.expected in r.held
  {
    AppendExpected(r, r.held[r.expected]).(held := r.held - {r.expected})
  }

  /** Move held frames to the buffer for as long as the expected one is among them. */
  function Drain(r: Receiver): Receiver
    decreases |r.held|
  {
    if r.expected in r.held then Drain(ReleaseExpected(r)) else r
  }

  /** How many frames `Drain` moves. */
  function Drained(r: Receiver): nat
    decreases |r.held|
  {
    if r.expected in r.held then 1 + Drained(ReleaseExpected(r)) else 0
  }

  function Accept(r: Receiver, sequence: nat, body: bytes): Receiver {
    if sequence == r.expected then Drain(AppendExpected(r, body))
    else if sequence !in r.held && |r.held| < REORDER_LIMIT && 0 < Distance(sequence, r.expected) < HALF
    then r.(held := r.held[sequence := body])
    else r
  }

  /** How many frames `Accept` appends to the buffer. */
  function Accepted(r: Receiver, sequence: nat, body: bytes): nat {
    if sequence == r.expected then 1 + Drained(AppendExpected(r, body)) else 0
  }

  /**
   The receiver has appended exactly the first `next` frames, and whatever it holds is
   the right frame for its number, at least `nearest` and less than half a circle ahead.
   */
  ghost predicate Tracks(r: Receiver, frames: seq<bytes>, next: nat, nearest: nat) {
    && next <= |frames|
    && r.expected == Wrap(next)
    && |r.held| <= REORDER_LIMIT
    && forall s | s in r.held ::
         && s < MODULUS
         && nearest <= Distance(s, r.expected) < HALF
         && next + Distance(s, r.expected) < |frames|
         && r.held[s] == frames[next + Distance(s, r.expected)]
  }

  /** Appending the expected frame moves everything held one step closer. */
  lemma AppendTracks(r: Receiver, frames: seq<bytes>, next: nat)
    requires Tracks(r, frames, next, 0) && next < |frames| && r.expected !in r.held
    ensures Tracks(AppendExpected(r, frames[next]), frames, next + 1, 0)
  {
    CircleIsModular(0, 0, next, 0);
    var moved := Successor(r.expected);
    forall s | s in r.held
      ensures Distance(s, moved) == Distance(s, r.expected) - 1
    {
    }
  }

  lemma ReleaseTracks(r: Receiver, frames: seq<bytes>, next: nat)
    requires Tracks(r, frames, next, 0) && r.expected in r.held
    ensures next < |frames| && r.held[r.expected] == frames[next]
    ensures Tracks(ReleaseExpected(r), frames, next + 1, 0)
  {
    assert Distance(r.expected, r.expected) == 0;
    AppendTracks(r.(held := r.held - {r.expected}), frames, next);
  }

  lemma ConcatCons(frames: seq<bytes>, from: nat, to: nat)
    requires from < to <= |frames|
    ensures Concat(frames[from..to]) == frames[from] + Concat(frames[from + 1..to])
  {
    assert frames[from..to] == [frames[from]] + frames[from + 1..to];
    ConcatAppend([frames[from]], frames[from + 1..to]);
    assert Concat([frames[from]]) == Concat([]) + frames[from];
  }

  lemma Associate(a: bytes, b: bytes, c: bytes)
    ensures (a + b) + c == a + (b + c)
  {
  }

  /** Draining appends consecutive frames and ends with nothing held at distance zero. */
  lemma {:induction false} DrainTracks(r: Receiver, frames: seq<bytes>, next: nat) returns (to: nat)
    requires Tracks(r, frames, next, 0)
    ensures to == next + Drained(r) && Tracks(Drain(r), frames, to, 1)
    ensures Drain(r).buffer == r.buffer + Concat(frames[next..to])
    decreases |r.held|
  {
    if r.expected in r.held {
      ReleaseTracks(r, frames, next);
      to := DrainTracks(ReleaseExpected(r), frames, next + 1);
      ConcatCons(frames, next, to);
      Associate(r.buffer, frames[next], Concat(frames[next + 1..to]));
    } else {
      to := next;
      assert frames[next..to] == [];
    }
  }

  /**
   The offsets from the expected frame at which a delivered frame is harmless whatever
   the stream and whatever is held: it is the expected frame or less than half a circle
   ahead of it, or its number falls in the half the receiver treats as old.
   */
  predicate Harmless(offset: int) {
    0 <= offset < 0x8000 || offset % 0x1_0000 >= 0x8000
  }

  lemma AcceptExpectedTracks(r: Receiver, frames: seq<bytes>, next: nat) returns (to: nat)
    requires Tracks(r, frames, next, 1) && next < |frames|
    ensures to == next + Accepted(r, r.expected, frames[next])
    ensures Tracks(Accept(r, r.expected, frames[next]), frames, to, 1)
    ensures Accept(r, r.expected, frames[next]).buffer == r.buffer + Concat(frames[next..to])
  {
    assert Distance(r.expected, r.expected) == 0;
    AppendTracks(r, frames, next);
    to := DrainTracks(AppendExpected(r, frames[next]), frames, next + 1);
    ConcatCons(frames, next, to);
    Associate(r.buffer, frames[next], Concat(frames[next + 1..to]));
  }

  /** Where a harmless frame other than the expected one lies on the circle. */
  lemma OtherDistance(next: nat, k: nat)
    requires Harmless(k - next) && k != next
    ensures Wrap(k) < MODULUS && Wrap(k) != Wrap(next)
    ensures if 0 < k - next < HALF then Distance(Wrap(k), Wrap(next)) == k - next else Distance(Wrap(k), Wrap(next)) >= HALF
  {
    CircleIsModular(0, 0, next, k);
  }

  /** A frame ahead of the expected one, or a stale one, leaves the buffer alone. */
  lemma AcceptOtherTracks(r: Receiver, frames: seq<bytes>, next: nat, k: nat)
    requires Tracks(r, frames, next, 1) && k < |frames| && Harmless(k - next) && k != next
    ensures Wrap(k) != r.expected
    ensures Tracks(Accept(r, Wrap(k), frames[k]), frames, next, 1)
  {
    OtherDistance(next, k);
    assert r.held[Wrap(k) := frames[k]].Keys == r.held.Keys + {Wrap(k)};
  }

  /** A harmless frame keeps the receiver in step with the stream. */
  lemma AcceptTracks(r: Receiver, frames: seq<bytes>, next: nat, k: nat) returns (to: nat)
    requires Tracks(r, frames, next, 1) && k < |frames| && Harmless(k - next)
    ensures to == next + Accepted(r, Wrap(k), frames[k])
    ensures Tracks(Accept(r, Wrap(k), frames[k]), frames, to, 1)
    ensures Accept(r, Wrap(k), frames[k]).buffer == r.buffer + Concat(frames[next..to])
  {
    if k == next {
      to := AcceptExpectedTracks(r, frames, next);
    } else {
      AcceptOtherTracks(r, frames, next, k);
      to := next;
      assert frames[next..to] == [];
    }
  }

  /** Accepting frame `k` appends exactly the frames it makes consecutive and stays in step. */
  ghost predicate StaysInStep(r: Receiver, frames: seq<bytes>, next: nat, k: nat)
    requires k < |frames|
  {
    var r', to := Accept(r, Wrap(k), frames[k]), next + Accepted(r, Wrap(k), frames[k]);
    Tracks(r', frames, to, 1) && r'.buffer == r.buffer + Concat(frames[next..to])
  }

  /** A stream in which a frame at a harmful offset is mistaken for a later one. */
  lemma HarmfulFrame(next: nat, k: nat) returns (r: Receiver, frames: seq<bytes>)
    requires !Harmless(k - next)
    ensures Tracks(r, frames, next, 1) && k < |frames| && !StaysInStep(r, frames, next, k)
  {
    var d := (k - next) % 0x1_0000;
    frames := seq(next + k + 0x1_0000, i => if i == k then [1] else [2]);
    r := Receiver(Wrap(next), [], map[]);
    CircleIsModular(0, 0, next, k);
    MistakenFrame(r, frames, next, k, next + d);
  }

  lemma OneFrame(frame: bytes)
    ensures Concat([frame]) == frame
  {
    assert [frame] == [] + [frame];
    ConcatSnoc([], frame);
  }

  /** What goes wrong when the number of frame `k` is that of a different frame `j` due later. */
  lemma MistakenFrame(r: Receiver, frames: seq<bytes>, next: nat, k: nat, j: nat)
    requires Tracks(r, frames, next, 1) && r.held == map[] && r.buffer == []
    requires k < |frames| && next <= j < |frames| && j < next + HALF && frames[k] != frames[j]
    requires Distance(Wrap(k), r.expected) == j - next
    ensures !StaysInStep(r, frames, next, k)
  {
    CircleIsModular(0, 0, next, k);
    if j == next {
      assert frames[next..next + 1] == [frames[next]];
      OneFrame(frames[next]);
      assert Drained(AppendExpected(r, frames[k])) == 0;
      assert Accept(r, Wrap(k), frames[k]).buffer == r.buffer + frames[k];
    } else {
      assert Wrap(k) in Accept(r, Wrap(k), frames[k]).held;
    }
  }

  /**
   Exactly the harmless offsets are safe: a delivered frame keeps every receiver in step
   with every stream if and only if its offset from the expected frame is harmless.
   */
  lemma HarmlessIsExact(next: nat, k: nat)
    ensures Harmless(k - next) <==>
            forall r, frames | Tracks(r, frames, next, 1) && k < |frames| :: StaysInStep(r, frames, next, k)
  {
    if Harmless(k - next) {
      forall r, frames | Tracks(r, frames, next, 1) && k < |frames|
        ensures StaysInStep(r, frames, next, k)
      {
        var to := AcceptTracks(r, frames, next, k);
      }
    } else {
      var r, frames := HarmfulFrame(next, k);
    }
  }

  // ---------------------------------------------------------------------------------
  // The reorder buffer, whatever arrives

  /** At most 64 frames are held, each at least `nearest` and less than half a circle ahead. */
  predicate WellHeld(r: Receiver, nearest: nat) {
    && r.expected < MODULUS && |r.held| <= REORDER_LIMIT
    && forall s | s in r.held :: s < MODULUS && nearest <= Distance(s, r.expected) < HALF
  }

  lemma ReleaseKeepsWellHeld(r: Receiver)
    requires WellHeld(r, 0) && r.expected in r.held
    ensures WellHeld(ReleaseExpected(r), 0)
  {
    var rest := r.held - {r.expected};
    assert r.held == rest[r.expected := r.held[r.expected]];
  }

  lemma {:induction false} DrainKeepsWellHeld(r: Receiver)
    requires WellHeld(r, 0)
    ensures WellHeld(Drain(r), 1)
    decreases |r.held|
  {
    if r.expected in r.held {
      ReleaseKeepsWellHeld(r);
      DrainKeepsWellHeld(ReleaseExpected(r));
    }
  }

  lemma AcceptKeepsWellHeld(r: Receiver, sequence: nat, body: bytes)
    requires WellHeld(r, 1) && sequence < MODULUS
    ensures WellHeld(Accept(r, sequence, body), 1)
  {
    if sequence == r.expected {
      assert Distance(r.expected, r.expected) == 0;
      DrainKeepsWellHeld(AppendExpected(r, body));
    } else {
      assert r.held[sequence := body].Keys == r.held.Keys + {sequence};
    }
  }

  function AcceptEach(r: Receiver, arrivals: seq<(nat, bytes)>): Receiver
    decreases |arrivals|
  {
    if arrivals == [] then r else AcceptEach(Accept(r, arrivals[0].0, arrivals[0].1), arrivals[1..])
  }

  /** Whatever frames arrive, genuine or not and in whatever order, the reorder buffer keeps its bounds. */
  lemma {:induction false} ReorderBufferIsBounded(r: Receiver, arrivals: seq<(nat, bytes)>)
    requires WellHeld(r, 1) && forall i | 0 <= i < |arrivals| :: arrivals[i].0 < MODULUS
    ensures WellHeld(AcceptEach(r, arrivals), 1)
    decreases |arrivals|
  {
    if arrivals != [] {
      AcceptKeepsWellHeld(r, arrivals[0].0, arrivals[0].1);
      ReorderBufferIsBounded(Accept(r, arrivals[0].0, arrivals[0].1), arrivals[1..]);
    }
  }

  // ---------------------------------------------------------------------------------
  // With at most 65 frames outstanding the reorder buffer always has room.

  const ROUND_LIMIT: nat := REORDER_LIMIT + 1

  /** Frame `k` has been appended or is held. */
  predicate Covered(r: Receiver, next: nat, k: nat) {
    k < next || Wrap(k) in r.held
  }

  /** The 16-bit numbers of the frames from `lo` up to but not including `hi`. */
  function Numbers(lo: nat, hi: nat): (s: set<nat>)
    ensures |s| <= if lo < hi then hi - lo else 0
    ensures forall k | lo <= k < hi :: Wrap(k) in s
    decreases hi
  {
    if lo < hi then Numbers(lo, hi - 1) + {Wrap(hi - 1)} else {}
  }

  lemma IndexOfNumber(sequence: nat, next: nat)
    requires sequence < MODULUS
    ensures Wrap(next + Distance(sequence, Wrap(next))) == sequence
  {
  }

  /** A frame that is not held finds room, because at most 63 others can be. */
  lemma RoomForFrame(r: Receiver, frames: seq<bytes>, next: nat, k: nat)
    requires Tracks(r, frames, next, 1) && next < k < |frames| <= next + ROUND_LIMIT
    requires Wrap(k) !in r.held
    ensures |r.held| < REORDER_LIMIT
  {
    var others := Numbers(next + 1, k) + Numbers(k + 1, |frames|);
    forall s | s in r.held
      ensures s in others
    {
      IndexOfNumber(s, next);
      var i := next + Distance(s, r.expected);
      assert i < k || k < i;
    }
    CardinalityOfSubset(r.held.Keys, others);
  }

  lemma {:induction false} CardinalityOfSubset(a: set<nat>, b: set<nat>)
    requires a <= b
    ensures |a| <= |b|
  {
    if a != {} {
      var x :| x in a;
      CardinalityOfSubset(a - {x}, b - {x});
    }
  }

  /** Everything `Drain` lets go of lies before the frame it stops at. */
  lemma {:induction false} DrainReleases(r: Receiver, frames: seq<bytes>, next: nat)
    requires Tracks(r, frames, next, 0)
    ensures forall s | s in r.held && s !in Drain(r).held :: Distance(s, r.expected) < Drained(r)
    decreases |r.held|
  {
    if r.expected in r.held {
      ReleaseTracks(r, frames, next);
      var d := ReleaseExpected(r);
      DrainReleases(d, frames, next + 1);
      forall s | s in r.held && s !in Drain(d).held
        ensures Distance(s, r.expected) < 1 + Drained(d)
      {
        if s != r.expected {
          assert Distance(s, d.expected) == Distance(s, r.expected) - 1;
        }
      }
    }
  }

  /** A frame less than half a circle ahead lies at the distance its index says. */
  lemma DistanceAhead(k: nat, next: nat)
    requires next <= k < next + 0x8000
    ensures Distance(Wrap(k), Wrap(next)) == k - next
  {
  }

  lemma AcceptExpectedCovers(r: Receiver, frames: seq<bytes>, next: nat, j: nat)
    requires Tracks(r, frames, next, 1) && next < |frames| <= next + ROUND_LIMIT
    requires j < |frames| && (j == next || Covered(r, next, j))
    ensures Covered(Accept(r, r.expected, frames[next]), next + Accepted(r, r.expected, frames[next]), j)
  {
    var a := AppendExpected(r, frames[next]);
    assert Distance(r.expected, r.expected) == 0;
    AppendTracks(r, frames, next);
    DrainReleases(a, frames, next + 1);
    if j > next {
      DistanceAhead(j, next + 1);
    }
  }

  /** Accepting a frame covers it and uncovers nothing. */
  lemma AcceptCovers(r: Receiver, frames: seq<bytes>, next: nat, k: nat, j: nat)
    requires Tracks(r, frames, next, 1) && k < |frames| <= next + ROUND_LIMIT && Harmless(k - next)
    requires j < |frames| && (j == k || Covered(r, next, j))
    ensures Covered(Accept(r, Wrap(k), frames[k]), next + Accepted(r, Wrap(k), frames[k]), j)
  {
    if k == next {
      AcceptExpectedCovers(r, frames, next, j);
    } else {
      AcceptOtherTracks(r, frames, next, k);
      if next < k && Wrap(k) !in r.held {
        RoomForFrame(r, frames, next, k);
        DistanceAhead(k, next);
      }
    }
  }

  /** A receiver that covers every frame of the stream has appended them all. */
  lemma AllCovered(r: Receiver, frames: seq<bytes>, next: nat)
    requires Tracks(r, frames, next, 1)
    requires next < |frames| ==> Covered(r, next, next)
    ensures next == |frames| && r.held == map[]
  {
    assert Distance(r.expected, r.expected) == 0;
  }

  predicate AllWithin(arrivals: seq<nat>, base: nat, limit: nat) {
    forall i | 0 <= i < |arrivals| :: base <= arrivals[i] < limit
  }

  function AcceptAll(r: Receiver, frames: seq<bytes>, arrivals: seq<nat>): Receiver
    requires AllWithin(arrivals, 0, |frames|)
    decreases |arrivals|
  {
    if arrivals == [] then r
    else AcceptAll(Accept(r, Wrap(arrivals[0]), frames[arrivals[0]]), frames, arrivals[1..])
  }

  lemma CoverStep(r: Receiver, frames: seq<bytes>, next: nat, k: nat) returns (to: nat)
    requires Tracks(r, frames, next, 1) && next <= k + ROUND_LIMIT && k < |frames| <= next + ROUND_LIMIT
    ensures next <= to && Tracks(Accept(r, Wrap(k), frames[k]), frames, to, 1)
    ensures Accept(r, Wrap(k), frames[k]).buffer == r.buffer + Concat(frames[next..to])
    ensures Covered(Accept(r, Wrap(k), frames[k]), to, k)
    ensures forall j: nat | j < |frames| && Covered(r, next, j) :: Covered(Accept(r, Wrap(k), frames[k]), to, j)
  {
    assert Harmless(k - next);
    to := AcceptTracks(r, frames, next, k);
    AcceptCovers(r, frames, next, k, k);
    forall j: nat | j < |frames| && Covered(r, next, j)
      ensures Covered(Accept(r, Wrap(k), frames[k]), to, j)
    {
      AcceptCovers(r, frames, next, k, j);
    }
  }

  lemma ConcatSplit(frames: seq<bytes>, a: nat, b: nat, c: nat, before: bytes)
    requires a <= b <= c <= |frames|
    ensures before + Concat(frames[a..b]) + Concat(frames[b..c]) == before + Concat(frames[a..c])
  {
    assert frames[a..c] == frames[a..b] + frames[b..c];
    ConcatAppend(frames[a..b], frames[b..c]);
  }

  /** Every frame not yet appended is held or still to come. */
  ghost predicate Awaited(r: Receiver, frames: seq<bytes>, next: nat, arrivals: seq<nat>) {
    forall k: nat | next <= k < |frames| :: Covered(r, next, k) || k in arrivals
  }

  /**
   Order confluence: whatever the order and the repetitions in which at most 65
   consecutive frames arrive, the receiver ends in one and the same state.
   */
  lemma {:induction false} ArrivalOrderIsIrrelevant(
    r: Receiver, frames: seq<bytes>, base: nat, next: nat, arrivals: seq<nat>)
    requires Tracks(r, frames, next, 1) && base <= next && |frames| <= base + ROUND_LIMIT
    requires AllWithin(arrivals, base, |frames|) && Awaited(r, frames, next, arrivals)
    ensures AcceptAll(r, frames, arrivals) ==
            Receiver(Wrap(|frames|), r.buffer + Concat(frames[next..]), map[])
    decreases |arrivals|
  {
    if arrivals == [] {
      AllCovered(r, frames, next);
      assert frames[next..] == [];
    } else {
      var k := arrivals[0];
      var to := CoverStep(r, frames, next, k);
      var r' := Accept(r, Wrap(k), frames[k]);
      ArrivalOrderIsIrrelevant(r', frames, base, to, arrivals[1..]);
      ConcatSplit(frames, next, to, |frames|, r.buffer);
      assert frames[to..] == frames[to..|frames|] && frames[next..] == frames[next..|frames|];
    }
  }
}
