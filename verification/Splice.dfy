/**
 Where a viewer's preamble meets its live data. The units behind the cached keyframe, and the
 start of the one that is being scanned, are in neither. So the keyframe reaches the viewer
 whole exactly if its live data begins with a start code.
 */
module Splice {
  import opened Octets
  import opened AnnexB
  import opened Scanner
  import opened ScannerSoundness

  predicate HasAll(c: Cache) {
    c.sps != [] && c.pps != [] && c.keyframe != []
  }

  lemma StartCodeBehind(unit: bytes, live: bytes, p: nat)
    ensures StartCodeAt(unit + live, |unit| + p) <==> StartCodeAt(live, p)
  {
  }

  /** The unit that starts with the keyframe is the keyframe exactly if what follows begins with a start code. */
  lemma KeyframeAndLive(keyframe: bytes, live: bytes)
    requires Clean(keyframe) && Next(live, 0) < |live|
    ensures StartCodeAt(keyframe + live, 0) && UnitsOf(keyframe + live) != []
    ensures UnitsOf(keyframe + live)[0] == keyframe <==> StartCodeAt(live, 0)
    ensures StartCodeAt(live, 0) ==> UnitsOf(keyframe + live) == [keyframe] + UnitsOf(live)
  {
    var all, p := keyframe + live, Next(live, 0);
    StartCodeBehind(keyframe, live, p);
    StartCodeBehind(keyframe, live, 0);
    assert StartCodeAt(all, 0);
    if StartCodeAt(live, 0) {
      JoinedUnit(keyframe, live);
    } else {
      assert |all[..Next(all, 3)]| == Next(all, 3);
      assert Next(all, 3) != |keyframe|;
    }
  }

  lemma FourParts(a: bytes, b: bytes, c: bytes, d: bytes)
    ensures a + b + c + d == a + (b + (c + d))
  {
  }

  lemma ThreeInFront(a: bytes, b: bytes, c: bytes, units: seq<bytes>)
    ensures [a] + ([b] + ([c] + units)) == [a, b, c] + units
  {
  }

  /**
   What a viewer decodes: the cached parameter sets always, and the cached keyframe as it was
   if and only if the live data begins with a start code; then the units of the live data follow.
   */
  lemma SpliceIsExact(c: Cache, live: bytes)
    requires CleanCache(c) && HasAll(c) && Next(live, 0) < |live|
    ensures var units := UnitsOf(c.sps + c.pps + c.keyframe + live);
            && |units| >= 3 && units[0] == c.sps && units[1] == c.pps
            && (units[2] == c.keyframe <==> StartCodeAt(live, 0))
            && (StartCodeAt(live, 0) ==> units == [c.sps, c.pps, c.keyframe] + UnitsOf(live))
  {
    var tail := c.keyframe + live;
    KeyframeAndLive(c.keyframe, live);
    JoinedTwo(c.sps, c.pps, tail);
    FourParts(c.sps, c.pps, c.keyframe, live);
    if StartCodeAt(live, 0) {
      ThreeInFront(c.sps, c.pps, c.keyframe, UnitsOf(live));
    }
  }

  /** The same for whatever a session has scanned and caches. */
  lemma ViewerDecodes(chunks: seq<bytes>, live: bytes)
    requires HasAll(FeedAll(EMPTY, chunks)) && Preamble(FeedAll(EMPTY, chunks)) != [] && Next(live, 0) < |live|
    ensures var c := FeedAll(EMPTY, chunks); var units := UnitsOf(Preamble(c) + live);
            && |units| >= 3 && units[0] == c.sps && units[1] == c.pps
            && (units[2] == c.keyframe <==> StartCodeAt(live, 0))
  {
    FedCacheIsClean(chunks);
    SpliceIsExact(FeedAll(EMPTY, chunks), live);
  }

  // ---------------------------------------------------------------------------------
  // A stream that a viewer joins in the middle of a unit

  const SPS: bytes := [0x00, 0x00, 0x01, 0x07]
  const PPS: bytes := [0x00, 0x00, 0x01, 0x08]
  const KEYFRAME: bytes := [0x00, 0x00, 0x01, 0x05]

  /** Three units and the start of a fourth. */
  function Joined(): bytes {
    SPS + PPS + KEYFRAME + [0x00, 0x00, 0x01, 0x01]
  }

  /** The rest of that unit, and the start of another. */
  function Rest(): bytes {
    [0x09, 0x00, 0x00, 0x01]
  }

  function Cached(): Cache {
    Cache([0x00, 0x00, 0x01, 0x01], SPS, PPS, KEYFRAME)
  }

  lemma CachedIsSound()
    ensures CleanCache(Cached()) && HasAll(Cached())
  {
  }

  lemma UnitsOfJoined()
    ensures UnitsOf(Joined()) == [SPS] + ([PPS] + [KEYFRAME])
  {
    var last: bytes := [0x00, 0x00, 0x01, 0x01];
    CachedIsSound();
    NextIs(last, 0, 0);
    KeyframeAndLive(KEYFRAME, last);
    JoinedTwo(SPS, PPS, KEYFRAME + last);
    FourParts(SPS, PPS, KEYFRAME, last);
  }

  lemma RecordedAll(c: Cache, s: bytes)
    requires CleanCache(c) && HasAll(c) && |s| <= MAX_SCAN_BYTES
    requires UnitsOf(s) == [c.sps] + ([c.pps] + [c.keyframe])
    ensures SameUnits(c, Feed(EMPTY, s))
  {
    RecordThree(c);
    assert EMPTY.scan + s == s == Trimmed(s);
  }

  lemma FeedJoined()
    ensures SameUnits(Cached(), Feed(EMPTY, Joined())) && Preamble(Feed(EMPTY, Joined())) == Preamble(Cached())
  {
    UnitsOfJoined();
    CachedIsSound();
    RecordedAll(Cached(), Joined());
  }

  lemma RestSplices()
    ensures |UnitsOf(Preamble(Cached()) + Rest())| >= 3 && UnitsOf(Preamble(Cached()) + Rest())[2] != KEYFRAME
  {
    CachedIsSound();
    NextIs(Rest(), 0, 1);
    SpliceIsExact(Cached(), Rest());
  }
}
