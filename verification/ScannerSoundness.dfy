/**
 What holds of the scanner even when its buffer is trimmed, and the round trip of the
 preamble through a fresh scanner.
 */
module ScannerSoundness {
  import opened Octets
  import opened AnnexB
  import opened Scanner

  /** Two consecutive start codes of the stream. */
  ghost predicate Consecutive(stream: bytes, p: nat, q: nat) {
    && p < q && StartCodeAt(stream, p) && StartCodeAt(stream, q)
    && forall j: nat | p < j < q :: !StartCodeAt(stream, j)
  }

  /** The octets from one start code of the stream to the next. */
  ghost predicate IsUnit(stream: bytes, unit: bytes) {
    exists p: nat, q: nat :: Consecutive(stream, p, q) && unit == stream[p..q]
  }

  ghost predicate AllUnits(stream: bytes, units: seq<bytes>) {
    forall i | 0 <= i < |units| :: IsUnit(stream, units[i])
  }

  lemma {:induction false} FoundUnitsAreUnits(s: bytes, p: nat)
    requires StartCodeAt(s, p)
    ensures AllUnits(s, Units(s, p))
    decreases |s| - p
  {
    var q := Next(s, p + 3);
    if q < |s| {
      FoundUnitsAreUnits(s, q);
      assert Consecutive(s, p, q);
    }
  }

  lemma MiddleSlice(before: bytes, part: bytes, after: bytes, p: nat, q: nat)
    requires p <= q <= |part|
    ensures (before + part + after)[|before| + p..|before| + q] == part[p..q]
  {
  }

  /** A unit of a part of a stream is a unit of the stream. */
  lemma UnitOfPart(before: bytes, part: bytes, after: bytes, unit: bytes)
    requires IsUnit(part, unit)
    ensures IsUnit(before + part + after, unit)
  {
    var p: nat, q: nat :| Consecutive(part, p, q) && unit == part[p..q];
    var all, k := before + part + after, |before|;
    assert forall j: nat | j + 3 <= |part| :: StartCodeAt(part, j) <==> StartCodeAt(all, k + j);
    forall j: nat | k + p < j < k + q
      ensures !StartCodeAt(all, j)
    {
      assert !StartCodeAt(part, j - k);
    }
    assert Consecutive(all, k + p, k + q);
    MiddleSlice(before, part, after, p, q);
  }

  lemma UnitsOfPart(before: bytes, part: bytes, after: bytes, units: seq<bytes>)
    requires AllUnits(part, units)
    ensures AllUnits(before + part + after, units)
  {
    forall i | 0 <= i < |units|
      ensures IsUnit(before + part + after, units[i])
    {
      UnitOfPart(before, part, after, units[i]);
    }
  }

  /** Every unit handed over for recording while the chunks were fed. */
  function Recorded(chunks: seq<bytes>): seq<bytes> {
    if chunks == [] then []
    else
      var front := chunks[..|chunks| - 1];
      Recorded(front) + UnitsOf(Trimmed(FeedAll(EMPTY, front).scan + chunks[|chunks| - 1]))
  }

  /** The scan buffer is the end of what was fed. */
  predicate IsSuffix(scan: bytes, stream: bytes) {
    |scan| <= |stream| && stream[|stream| - |scan|..] == scan
  }

  lemma SuffixSplit(scan: bytes, stream: bytes)
    requires IsSuffix(scan, stream)
    ensures stream == stream[..|stream| - |scan|] + scan
  {
  }

  lemma SuffixTransitive(a: bytes, b: bytes, c: bytes)
    requires IsSuffix(a, b) && IsSuffix(b, c)
    ensures IsSuffix(a, c)
  {
    SuffixSplit(a, b);
    SuffixSplit(b, c);
  }

  lemma FedPartIsSuffix(scan: bytes, stream: bytes, chunk: bytes)
    requires IsSuffix(scan, stream)
    ensures var t := Trimmed(scan + chunk);
            IsSuffix(t, stream + chunk) && IsSuffix(Residue(t), stream + chunk)
  {
    SuffixSplit(scan, stream);
    assert IsSuffix(scan + chunk, stream + chunk);
    var t := Trimmed(scan + chunk);
    assert IsSuffix(t, scan + chunk);
    SuffixTransitive(t, scan + chunk, stream + chunk);
    assert IsSuffix(Residue(t), t);
    SuffixTransitive(Residue(t), t, stream + chunk);
  }

  lemma NewUnits(t: bytes, stream: bytes)
    requires IsSuffix(t, stream)
    ensures AllUnits(stream, UnitsOf(t))
  {
    if UnitsOf(t) != [] {
      FoundUnitsAreUnits(t, Next(t, 0));
      SuffixSplit(t, stream);
      UnitsOfPart(stream[..|stream| - |t|], t, [], UnitsOf(t));
      assert stream[..|stream| - |t|] + t + [] == stream;
    }
  }

  /** The cache is what recording true units of the stream left, with the stream's end to scan. */
  ghost predicate SoundCache(c: Cache, stream: bytes, recorded: seq<bytes>) {
    && |c.scan| <= MAX_SCAN_BYTES && IsSuffix(c.scan, stream)
    && c == RecordAll(EMPTY, recorded).(scan := c.scan)
    && AllUnits(stream, recorded)
  }

  lemma FeedRecords(c: Cache, recorded: seq<bytes>, t: bytes)
    requires c == RecordAll(EMPTY, recorded).(scan := c.scan)
    ensures RecordAll(c, UnitsOf(t)).(scan := Residue(t)) ==
            RecordAll(EMPTY, recorded + UnitsOf(t)).(scan := Residue(t))
  {
    RecordAllScan(RecordAll(EMPTY, recorded), c.scan, UnitsOf(t));
    RecordAllAppend(EMPTY, recorded, UnitsOf(t));
  }

  lemma UnitsGrow(stream: bytes, chunk: bytes, units: seq<bytes>)
    requires AllUnits(stream, units)
    ensures AllUnits(stream + chunk, units)
  {
    UnitsOfPart([], stream, chunk, units);
    assert [] + stream + chunk == stream + chunk;
  }

  lemma FeedKeepsSound(c: Cache, stream: bytes, recorded: seq<bytes>, chunk: bytes)
    requires SoundCache(c, stream, recorded)
    ensures SoundCache(Feed(c, chunk), stream + chunk, recorded + UnitsOf(Trimmed(c.scan + chunk)))
  {
    var t := Trimmed(c.scan + chunk);
    FedPartIsSuffix(c.scan, stream, chunk);
    FeedRecords(c, recorded, t);
    UnitsGrow(stream, chunk, recorded);
    NewUnits(t, stream + chunk);
  }

  /**
   Soundness under trimming: the buffer is at most 4 MiB and always a contiguous end of the
   bytes fed, the cache is what recording the units in order leaves, and every unit ever
   recorded is exactly the octets between two consecutive start codes of the stream.
   */
  lemma {:induction false} TrimmingIsSound(chunks: seq<bytes>)
    ensures SoundCache(FeedAll(EMPTY, chunks), Concat(chunks), Recorded(chunks))
  {
    if chunks != [] {
      var front := chunks[..|chunks| - 1];
      TrimmingIsSound(front);
      FeedKeepsSound(FeedAll(EMPTY, front), Concat(front), Recorded(front), chunks[|chunks| - 1]);
    }
  }

  /** The latest of the units that is kept under `kind`, or `default` if none is. */
  ghost predicate IsNewest(units: seq<bytes>, kind: nat, default: bytes, unit: bytes) {
    || (unit == default && forall i | 0 <= i < |units| :: !Kept(units[i], kind))
    || (exists i :: 0 <= i < |units| && unit == units[i] && Kept(unit, kind)
                    && forall j | i < j < |units| :: !Kept(units[j], kind))
  }

  lemma NewestStep(units: seq<bytes>, kind: nat, default: bytes, unit: bytes)
    requires units != []
    requires IsNewest(units[1..], kind, if Kept(units[0], kind) then units[0] else default, unit)
    ensures IsNewest(units, kind, default, unit)
  {
    assert forall i | 0 < i < |units| :: units[i] == units[1..][i - 1];
    if i :| 0 <= i < |units[1..]| && unit == units[1..][i] && Kept(unit, kind)
            && forall j | i < j < |units[1..]| :: !Kept(units[1..][j], kind) {
      assert unit == units[i + 1];
    }
  }

  /** The cache holds the newest sequence parameters, picture parameters and keyframe slice. */
  lemma {:induction false} CacheHoldsNewest(c: Cache, units: seq<bytes>)
    ensures var d := RecordAll(c, units);
            && IsNewest(units, 7, c.sps, d.sps)
            && IsNewest(units, 8, c.pps, d.pps)
            && IsNewest(units, 5, c.keyframe, d.keyframe)
    decreases |units|
  {
    if units != [] {
      var d := Record(c, units[0]);
      CacheHoldsNewest(d, units[1..]);
      var e := RecordAll(c, units);
      NewestStep(units, 7, c.sps, e.sps);
      NewestStep(units, 8, c.pps, e.pps);
      NewestStep(units, 5, c.keyframe, e.keyframe);
    }
  }

  // ---------------------------------------------------------------------------------
  // The preamble, scanned again

  /** A unit on its own: one start code, at its beginning. */
  ghost predicate Clean(unit: bytes) {
    StartCodeAt(unit, 0) && forall j: nat | 0 < j :: !StartCodeAt(unit, j)
  }

  lemma UnitIsClean(stream: bytes, unit: bytes)
    requires IsUnit(stream, unit)
    ensures Clean(unit)
  {
    var p: nat, q: nat :| Consecutive(stream, p, q) && unit == stream[p..q];
    forall j: nat | 0 < j
      ensures !StartCodeAt(unit, j)
    {
      if j + 3 <= |unit| {
        assert !StartCodeAt(stream, p + j);
      }
    }
    if q < p + 3 {
      StartCodesDoNotOverlap(stream, p);
    }
  }

  /** Joining a unit to a start code makes no new start code across the seam. */
  lemma JoinedUnit(unit: bytes, rest: bytes)
    requires Clean(unit) && StartCodeAt(rest, 0)
    ensures UnitsOf(unit + rest) == [unit] + UnitsOf(rest)
  {
    var all := unit + rest;
    assert all[|unit|..] == rest && all[..|unit|] == unit;
    assert StartCodeAt(all, 0) && StartCodeAt(all, |unit|);
    forall j: nat | 0 < j < |unit|
      ensures !StartCodeAt(all, j)
    {
      if j + 3 <= |unit| {
        assert !StartCodeAt(unit, j);
      }
    }
    NextIs(all, 0, 0);
    NextIs(all, 3, |unit|);
    ScanFromStartCode(all, |unit|);
    assert all[0..|unit|] == unit;
  }

  lemma CachedIsClean(stream: bytes, units: seq<bytes>, kind: nat, unit: bytes)
    requires AllUnits(stream, units) && IsNewest(units, kind, [], unit) && unit != []
    ensures Clean(unit) && Kept(unit, kind)
  {
    var i :| 0 <= i < |units| && unit == units[i] && Kept(unit, kind);
    UnitIsClean(stream, unit);
  }

  lemma RecordThree(c: Cache)
    requires Kept(c.sps, 7) && Kept(c.pps, 8) && (c.keyframe != [] ==> Kept(c.keyframe, 5))
    ensures RecordAll(EMPTY, [c.sps] + ([c.pps] + (if c.keyframe == [] then [] else [c.keyframe]))) == c.(scan := [])
  {
    var last := if c.keyframe == [] then [] else [c.keyframe];
    var d := Record(Record(EMPTY, c.sps), c.pps);
    assert ([c.sps] + ([c.pps] + last))[1..] == [c.pps] + last;
    assert ([c.pps] + last)[1..] == last;
    assert RecordAll(EMPTY, [c.sps] + ([c.pps] + last)) == RecordAll(d, last);
    if c.keyframe != [] {
      assert last[1..] == [];
      assert RecordAll(d, last) == Record(d, c.keyframe);
    }
  }

  predicate SameUnits(c: Cache, d: Cache) {
    d.sps == c.sps && d.pps == c.pps && d.keyframe == c.keyframe
  }

  ghost predicate CleanCache(c: Cache) {
    && (c.sps != [] ==> Clean(c.sps) && Kept(c.sps, 7))
    && (c.pps != [] ==> Clean(c.pps) && Kept(c.pps, 8))
    && (c.keyframe != [] ==> Clean(c.keyframe) && Kept(c.keyframe, 5))
  }

  lemma FedCacheIsClean(chunks: seq<bytes>)
    ensures CleanCache(FeedAll(EMPTY, chunks))
  {
    TrimmingIsSound(chunks);
    var c, stream, units := FeedAll(EMPTY, chunks), Concat(chunks), Recorded(chunks);
    CacheHoldsNewest(EMPTY, units);
    if c.sps != [] {
      CachedIsClean(stream, units, 7, c.sps);
    }
    if c.pps != [] {
      CachedIsClean(stream, units, 8, c.pps);
    }
    if c.keyframe != [] {
      CachedIsClean(stream, units, 5, c.keyframe);
    }
  }

  lemma JoinedTwo(a: bytes, b: bytes, tail: bytes)
    requires Clean(a) && Clean(b) && StartCodeAt(tail, 0)
    ensures UnitsOf(a + (b + tail)) == [a] + ([b] + UnitsOf(tail))
  {
    JoinedUnit(b, tail);
    JoinedUnit(a, b + tail);
  }

  lemma RescanTail(keyframe: bytes)
    requires keyframe != [] ==> Clean(keyframe)
    ensures StartCodeAt(keyframe + START_CODE, 0)
    ensures UnitsOf(keyframe + START_CODE) == if keyframe == [] then [] else [keyframe]
  {
    if keyframe == [] {
      assert keyframe + START_CODE == START_CODE;
    } else {
      JoinedUnit(keyframe, START_CODE);
    }
  }

  lemma RescanUnits(c: Cache)
    requires CleanCache(c) && c.sps != [] && c.pps != []
    ensures UnitsOf(c.sps + c.pps + c.keyframe + START_CODE) ==
            [c.sps] + ([c.pps] + (if c.keyframe == [] then [] else [c.keyframe]))
  {
    var tail := c.keyframe + START_CODE;
    RescanTail(c.keyframe);
    JoinedTwo(c.sps, c.pps, tail);
    assert c.sps + c.pps + c.keyframe + START_CODE == c.sps + (c.pps + tail);
  }

  /**
   Round trip: whatever stream was scanned, and however it was cut and trimmed, a fresh
   scanner fed the preamble and one more start code remembers the same three units.
   */
  lemma PreambleRebuildsCache(chunks: seq<bytes>)
    requires Preamble(FeedAll(EMPTY, chunks)) != []
    ensures SameUnits(FeedAll(EMPTY, chunks), Feed(EMPTY, Preamble(FeedAll(EMPTY, chunks)) + START_CODE))
  {
    var c := FeedAll(EMPTY, chunks);
    FedCacheIsClean(chunks);
    RescanUnits(c);
    RecordThree(c);
    var fed := Preamble(c) + START_CODE;
    assert EMPTY.scan + fed == fed == Trimmed(fed);
  }
}
