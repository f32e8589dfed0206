/**
 The incremental NAL unit scanner of a stream session, as functions on values, and what it
 remembers of a stream that arrives in arbitrary chunks.
 */
module Scanner {
  import opened Octets
  import opened AnnexB

  const MAX_PREAMBLE_BYTES: nat := 1024 * 1024
  const MAX_SCAN_BYTES: nat := 4 * 1024 * 1024

  datatype Cache = Cache(scan: bytes, sps: bytes, pps: bytes, keyframe: bytes)

  const EMPTY := Cache([], [], [], [])

  /** The first start code at `i` or later, or the length if there is none. */
  function Next(s: bytes, i: nat): (n: nat)
    requires i <= |s|
    ensures i <= n <= |s|
    ensures n < |s| ==> StartCodeAt(s, n)
    ensures forall j: nat | i <= j < n :: !StartCodeAt(s, j)
    decreases |s| - i
  {
    if i == |s| || StartCodeAt(s, i) then i else Next(s, i + 1)
  }

  /** The complete units from the start code at `p` on: each ends where the next one starts. */
  function Units(s: bytes, p: nat): seq<bytes>
    requires StartCodeAt(s, p)
    decreases |s| - p
  {
    var q := Next(s, p + 3);
    if q == |s| then [] else [s[p..q]] + Units(s, q)
  }

  /** The last start code from the one at `p` on. */
  function Last(s: bytes, p: nat): (l: nat)
    requires StartCodeAt(s, p)
    ensures p <= l && StartCodeAt(s, l)
    decreases |s| - p
  {
    var q := Next(s, p + 3);
    if q == |s| then p else Last(s, q)
  }

  function UnitsOf(s: bytes): seq<bytes> {
    var p := Next(s, 0);
    if p == |s| then [] else Units(s, p)
  }

  /** What stays in the scan buffer: everything, or the incomplete unit behind complete ones. */
  function Residue(s: bytes): bytes {
    if UnitsOf(s) == [] then s else s[Last(s, Next(s, 0))..]
  }

  predicate Kept(unit: bytes, kind: nat) {
    3 < |unit| <= MAX_PREAMBLE_BYTES && NalType(unit[3]) == kind
  }

  function Record(c: Cache, unit: bytes): Cache {
    if Kept(unit, 7) then c.(sps := unit)
    else if Kept(unit, 8) then c.(pps := unit)
    else if Kept(unit, 5) then c.(keyframe := unit)
    else c
  }

  function RecordAll(c: Cache, units: seq<bytes>): Cache
    decreases |units|
  {
    if units == [] then c else RecordAll(Record(c, units[0]), units[1..])
  }

  /** The scan buffer after a chunk, before it is scanned: the newest 4 MiB. */
  function Trimmed(s: bytes): (t: bytes)
    ensures |t| <= MAX_SCAN_BYTES
  {
    if |s| > MAX_SCAN_BYTES then s[|s| - MAX_SCAN_BYTES..] else s
  }

  function Feed(c: Cache, chunk: bytes): Cache {
    var s := Trimmed(c.scan + chunk);
    RecordAll(c, UnitsOf(s)).(scan := Residue(s))
  }

  function FeedAll(c: Cache, chunks: seq<bytes>): Cache {
    if chunks == [] then c
    else Feed(FeedAll(c, chunks[..|chunks| - 1]), chunks[|chunks| - 1])
  }

  function Preamble(c: Cache): bytes {
    if c.sps == [] || c.pps == [] then []
    else
      var preamble := c.sps + c.pps + c.keyframe;
      if |preamble| <= MAX_PREAMBLE_BYTES then preamble else []
  }

  /**
   By its header octet: a unit longer than its start code and of at most 1 MiB replaces the
   sequence parameters, the picture parameters or the keyframe, whatever the three bits above
   its type, and every other unit replaces nothing.
   */
  lemma RecordByHeader(c: Cache, unit: bytes)
    ensures Record(c, unit) ==
            if |unit| <= 3 || |unit| > 1048576 then c
            else if unit[3] in {0x07, 0x27, 0x47, 0x67, 0x87, 0xA7, 0xC7, 0xE7} then Cache(c.scan, unit, c.pps, c.keyframe)
            else if unit[3] in {0x08, 0x28, 0x48, 0x68, 0x88, 0xA8, 0xC8, 0xE8} then Cache(c.scan, c.sps, unit, c.keyframe)
            else if unit[3] in {0x05, 0x25, 0x45, 0x65, 0x85, 0xA5, 0xC5, 0xE5} then Cache(c.scan, c.sps, c.pps, unit)
            else c
  {
    if |unit| > 3 {
      HeadersOfTypes(unit[3]);
    }
  }

  /** The newest 4 MiB are scanned. */
  lemma TrimmedIsNewest(s: bytes)
    ensures |s| <= 4194304 ==> Trimmed(s) == s
    ensures |s| > 4194304 ==> |Trimmed(s)| == 4194304 && s == s[..|s| - 4194304] + Trimmed(s)
  {
  }

  /** There is no preamble exactly if a parameter set is missing or the units are more than 1 MiB. */
  lemma PreambleIsExact(c: Cache)
    ensures Preamble(c) == [] <==> c.sps == [] || c.pps == [] || |c.sps| + |c.pps| + |c.keyframe| > 1048576
    ensures Preamble(c) != [] ==> Preamble(c) == c.sps + c.pps + c.keyframe
  {
  }

  // ---------------------------------------------------------------------------------
  // Searching a longer, or a later, part of the same stream

  lemma StartCodesDoNotOverlap(s: bytes, p: nat)
    requires StartCodeAt(s, p)
    ensures !StartCodeAt(s, p + 1) && !StartCodeAt(s, p + 2)
  {
  }

  lemma {:induction false} NextIs(s: bytes, i: nat, n: nat)
    requires i <= n <= |s| && (n < |s| ==> StartCodeAt(s, n))
    requires forall j: nat | i <= j < n :: !StartCodeAt(s, j)
    ensures Next(s, i) == n
  {
  }

  lemma NextExtended(s: bytes, more: bytes, i: nat)
    requires i <= |s| && Next(s, i) < |s|
    ensures Next(s + more, i) == Next(s, i)
  {
    var n := Next(s, i);
    assert forall j: nat | j + 3 <= |s| :: StartCodeAt(s + more, j) == StartCodeAt(s, j);
    NextIs(s + more, i, n);
  }

  lemma NextShifted(s: bytes, k: nat, i: nat)
    requires k + i <= |s|
    ensures Next(s[k..], i) + k == Next(s, k + i)
  {
    assert forall j: nat :: StartCodeAt(s[k..], j) <==> StartCodeAt(s, k + j);
    var n := Next(s[k..], i);
    forall j: nat | k + i <= j < k + n
      ensures !StartCodeAt(s, j)
    {
      assert !StartCodeAt(s[k..], j - k);
    }
    NextIs(s, k + i, k + n);
  }

  lemma StartCodeExtended(s: bytes, more: bytes, p: nat)
    requires StartCodeAt(s, p)
    ensures StartCodeAt(s + more, p)
  {
  }

  lemma SliceExtended(s: bytes, more: bytes, p: nat, q: nat)
    requires p <= q <= |s|
    ensures (s + more)[p..q] == s[p..q]
  {
  }

  lemma SliceShifted(s: bytes, k: nat, p: nat, q: nat)
    requires p <= q && k + q <= |s|
    ensures s[k..][p..q] == s[k + p..k + q]
  {
  }

  lemma UnitInFront(unit: bytes, a: seq<bytes>, b: seq<bytes>)
    ensures [unit] + a + b == [unit] + (a + b)
  {
  }

  /** More bytes behind leave the complete units alone and continue from the last start code. */
  lemma {:induction false} UnitsExtended(s: bytes, more: bytes, p: nat)
    requires StartCodeAt(s, p)
    ensures StartCodeAt(s + more, p) && StartCodeAt(s + more, Last(s, p))
    ensures Units(s + more, p) == Units(s, p) + Units(s + more, Last(s, p))
    ensures Last(s + more, p) == Last(s + more, Last(s, p))
    decreases |s| - p
  {
    var q := Next(s, p + 3);
    StartCodeExtended(s, more, p);
    if q < |s| {
      NextExtended(s, more, p + 3);
      UnitsExtended(s, more, q);
      SliceExtended(s, more, p, q);
      UnitInFront(s[p..q], Units(s, q), Units(s + more, Last(s, q)));
    }
  }

  lemma {:induction false} UnitsShifted(s: bytes, k: nat, p: nat)
    requires k <= |s| && StartCodeAt(s[k..], p)
    ensures StartCodeAt(s, k + p)
    ensures Units(s[k..], p) == Units(s, k + p) && Last(s[k..], p) + k == Last(s, k + p)
    decreases |s| - p
  {
    NextShifted(s, k, p + 3);
    var q := Next(s[k..], p + 3);
    if q < |s[k..]| {
      UnitsShifted(s, k, q);
      SliceShifted(s, k, p, q);
    }
  }

  lemma {:induction false} RecordAllAppend(c: Cache, a: seq<bytes>, b: seq<bytes>)
    ensures RecordAll(c, a + b) == RecordAll(RecordAll(c, a), b)
    decreases |a|
  {
    if a == [] {
      assert a + b == b;
    } else {
      assert (a + b)[1..] == a[1..] + b;
      RecordAllAppend(Record(c, a[0]), a[1..], b);
    }
  }

  lemma {:induction false} RecordAllScan(c: Cache, scan: bytes, units: seq<bytes>)
    ensures RecordAll(c.(scan := scan), units) == RecordAll(c, units).(scan := scan)
    decreases |units|
  {
    if units != [] {
      RecordAllScan(Record(c, units[0]), scan, units[1..]);
    }
  }

  // ---------------------------------------------------------------------------------
  // Chunking independence

  /** What one scan of the whole stream remembers and leaves over. */
  function Whole(stream: bytes): Cache {
    RecordAll(EMPTY, UnitsOf(stream)).(scan := Residue(stream))
  }

  lemma ScanFromStartCode(s: bytes, l: nat)
    requires StartCodeAt(s, l)
    ensures UnitsOf(s[l..]) == Units(s, l) && Residue(s[l..]) == s[Last(s, l)..]
  {
    assert StartCodeAt(s[l..], 0);
    NextIs(s[l..], 0, 0);
    UnitsShifted(s, l, 0);
    if UnitsOf(s[l..]) == [] {
      assert Last(s, l) == l;
    }
  }

  lemma TailExtended(s: bytes, more: bytes, l: nat)
    requires l <= |s|
    ensures s[l..] + more == (s + more)[l..]
  {
  }

  /** Scanning on from what an earlier part left over finds the rest of the units. */
  lemma ResumeScan(stream: bytes, more: bytes)
    ensures UnitsOf(stream + more) == UnitsOf(stream) + UnitsOf(Residue(stream) + more)
    ensures Residue(stream + more) == Residue(Residue(stream) + more)
  {
    var all := stream + more;
    if UnitsOf(stream) == [] {
      assert Residue(stream) + more == all;
    } else {
      var p := Next(stream, 0);
      var l := Last(stream, p);
      NextExtended(stream, more, 0);
      UnitsExtended(stream, more, p);
      assert UnitsOf(all) == Units(all, p) && Residue(all) == all[Last(all, p)..];
      TailExtended(stream, more, l);
      ScanFromStartCode(all, l);
    }
  }

  lemma FeedResumes(stream: bytes, chunk: bytes)
    requires |Whole(stream).scan + chunk| <= MAX_SCAN_BYTES
    ensures Feed(Whole(stream), chunk) == Whole(stream + chunk)
  {
    ResumeScan(stream, chunk);
    var units, more := UnitsOf(stream), UnitsOf(Residue(stream) + chunk);
    RecordAllAppend(EMPTY, units, more);
    RecordAllScan(RecordAll(EMPTY, units), Residue(stream), more);
  }

  /** The 4 MiB limit is not exceeded at any chunk. */
  predicate NeverTrims(c: Cache, chunks: seq<bytes>) {
    chunks != [] ==>
      var front := chunks[..|chunks| - 1];
      NeverTrims(c, front) && |FeedAll(c, front).scan + chunks[|chunks| - 1]| <= MAX_SCAN_BYTES
  }

  /**
   However a stream is cut into chunks, as long as nothing is trimmed, the scanner ends, buffer
   and all, as if it had scanned the whole stream at once.
   */
  lemma {:induction false} UntrimmedIsWhole(chunks: seq<bytes>)
    requires NeverTrims(EMPTY, chunks)
    ensures FeedAll(EMPTY, chunks) == Whole(Concat(chunks))
  {
    if chunks == [] {
      assert UnitsOf([]) == [];
    } else {
      var front := chunks[..|chunks| - 1];
      UntrimmedIsWhole(front);
      FeedResumes(Concat(front), chunks[|chunks| - 1]);
    }
  }
}
