/**
 Trimming the scan buffer, and how large a chunk may be for it to change nothing that is
 remembered. A trim can cut off the start of an incomplete unit. With chunks short enough
 such a unit is already longer than the limit above which units are discarded anyway.
 */
module ScannerTrimming {
  import opened Octets
  import opened AnnexB
  import opened Scanner
  import opened ScannerSoundness

  /** 3 MiB less two octets. */
  const LARGEST_CHUNK: nat := 3145726

  /** The complete units from the first start code at `i` or later on. */
  function UnitsFrom(s: bytes, i: nat): seq<bytes>
    requires i <= |s|
  {
    var p := Next(s, i);
    if p == |s| then [] else Units(s, p)
  }

  /** `l` is the last start code of the stream, or -1 if it has none. */
  ghost predicate IsLast(stream: bytes, l: int) {
    && -1 <= l
    && (0 <= l ==> StartCodeAt(stream, l))
    && forall j: nat | l < j :: !StartCodeAt(stream, j)
  }

  /**
   A buffer that starts at `o`: only the last start code may lie in it, and if not even that
   one does, the unit it starts is too long to be kept.
   */
  ghost predicate WellPlaced(stream: bytes, o: nat, l: int) {
    && IsLast(stream, l)
    && o <= |stream| && (o == 0 || o + 3 <= |stream|)
    && (forall j: nat | j < l && StartCodeAt(stream, j) :: j < o)
    && (0 <= l < o ==> |stream| - l > MAX_PREAMBLE_BYTES + 2)
  }

  /** Where the buffer starts once it is trimmed to the newest 4 MiB of `total` octets. */
  function Cut(o: nat, total: nat): nat {
    if total > o + MAX_SCAN_BYTES then total - MAX_SCAN_BYTES else o
  }

  lemma TrimmedIsTail(stream: bytes, chunk: bytes, o: nat)
    requires o <= |stream|
    ensures Cut(o, |stream + chunk|) <= |stream + chunk|
    ensures Trimmed(stream[o..] + chunk) == (stream + chunk)[Cut(o, |stream + chunk|)..]
  {
    assert stream[o..] + chunk == (stream + chunk)[o..];
  }

  /** Where the buffer starts after scanning from `o`. */
  function Resumed(s: bytes, o: nat): (m: nat)
    requires o <= |s|
    ensures o <= m <= |s|
  {
    if UnitsFrom(s, o) == [] then o else Last(s, Next(s, o))
  }

  /** The start codes of a buffer that starts at `o`, seen from the stream. */
  lemma StartsOfTail(s: bytes, o: nat) returns (p: nat)
    requires o <= |s|
    ensures p == Next(s[o..], 0) && o + p == Next(s, o)
    ensures p < |s[o..]| ==>
              && StartCodeAt(s[o..], p) && StartCodeAt(s, o + p)
              && Units(s[o..], p) == Units(s, o + p) && Last(s[o..], p) + o == Last(s, o + p)
  {
    NextShifted(s, o, 0);
    p := Next(s[o..], 0);
    if p < |s[o..]| {
      UnitsShifted(s, o, p);
    }
  }

  lemma UnitsOfTail(s: bytes, o: nat)
    requires o <= |s|
    ensures UnitsOf(s[o..]) == UnitsFrom(s, o)
  {
    var p := StartsOfTail(s, o);
    if p == |s[o..]| {
      assert UnitsFrom(s, o) == [];
    } else {
      assert UnitsFrom(s, o) == Units(s, o + p);
    }
  }

  lemma ResidueOfTail(s: bytes, o: nat)
    requires o <= |s|
    ensures Residue(s[o..]) == s[Resumed(s, o)..]
  {
    var p := StartsOfTail(s, o);
    UnitsOfTail(s, o);
    if UnitsFrom(s, o) != [] {
      assert p < |s[o..]| && Resumed(s, o) == o + Last(s[o..], p);
    }
  }

  lemma {:induction false} LastIsFinal(s: bytes, p: nat)
    requires StartCodeAt(s, p)
    ensures forall j: nat | Last(s, p) < j :: !StartCodeAt(s, j)
    decreases |s| - p
  {
    var q := Next(s, p + 3);
    StartCodesDoNotOverlap(s, p);
    if q < |s| {
      LastIsFinal(s, q);
    }
  }

  lemma LastIs(s: bytes, p: nat, l: int)
    requires StartCodeAt(s, p) && IsLast(s, l)
    ensures Last(s, p) == l
  {
    LastIsFinal(s, p);
  }

  /** Where scanning the longer stream goes on from. */
  function From(l: int): nat {
    if l < 0 then 0 else l
  }

  /** The units of a longer stream are the earlier ones and those from the last start code on. */
  lemma WholeResumes(stream: bytes, chunk: bytes, l: int)
    requires IsLast(stream, l)
    ensures From(l) <= |stream + chunk|
    ensures UnitsOf(stream + chunk) == UnitsOf(stream) + UnitsFrom(stream + chunk, From(l))
  {
    if l < 0 {
      assert UnitsOf(stream) == [];
    } else {
      var p := Next(stream, 0);
      LastIs(stream, p, l);
      NextExtended(stream, chunk, 0);
      UnitsExtended(stream, chunk, p);
      NextIs(stream + chunk, l, l);
    }
  }

  /** No start code from `i` up to `j`: the search from either finds the same. */
  lemma SameNext(s: bytes, i: nat, j: nat)
    requires i <= j <= |s| && forall k: nat | i <= k < j :: !StartCodeAt(s, k)
    ensures Next(s, i) == Next(s, j)
  {
    NextIs(s, i, Next(s, j));
  }

  /** A start code of the longer stream behind the last one of the shorter reaches into the chunk. */
  lemma NewStartCode(stream: bytes, chunk: bytes, l: int, q: nat)
    requires IsLast(stream, l) && l < q && StartCodeAt(stream + chunk, q)
    ensures |stream| < q + 3
  {
    if q + 3 <= |stream| {
      assert StartCodeAt(stream, q);
      assert false;
    }
  }

  /** A unit the buffer has lost the start of is too long to be kept. */
  lemma LostUnitIsLong(stream: bytes, chunk: bytes, o: nat, l: int, q: nat)
    requires WellPlaced(stream, o, l) && |chunk| <= LARGEST_CHUNK && 0 <= l < q
    requires l < Cut(o, |stream + chunk|) && StartCodeAt(stream + chunk, q)
    ensures Cut(o, |stream + chunk|) <= q && q - l > MAX_PREAMBLE_BYTES
  {
    NewStartCode(stream, chunk, l, q);
  }

  /** A start code ahead of the buffer is the last one of the stream so far. */
  lemma LostIsLast(stream: bytes, chunk: bytes, o: nat, l: int)
    requires WellPlaced(stream, o, l) && |chunk| <= LARGEST_CHUNK
    requires var all := stream + chunk; From(l) <= |all| && Next(all, From(l)) < Cut(o, |all|)
    ensures 0 <= l && Next(stream + chunk, From(l)) == l
  {
    var all := stream + chunk;
    var p := Next(all, From(l));
    if l < 0 {
      NewStartCode(stream, chunk, l, p);
      assert false;
    }
    assert StartCodeAt(all, l) by {
      StartCodeExtended(stream, chunk, l);
    }
    NextIs(all, l, l);
  }

  /** Leaving out a unit that is not kept changes nothing that is recorded. */
  lemma LongUnitIsDropped(c: Cache, s: bytes, p: nat, o: nat)
    requires StartCodeAt(s, p) && p < o <= |s| && o <= Next(s, p + 3)
    requires Next(s, p + 3) < |s| ==> Next(s, p + 3) - p > MAX_PREAMBLE_BYTES
    ensures RecordAll(c, Units(s, p)) == RecordAll(c, UnitsFrom(s, o))
  {
    var q := Next(s, p + 3);
    StartCodesDoNotOverlap(s, p);
    SameNext(s, p + 1, q);
    SameNext(s, o, q);
    if q < |s| {
      NextIs(s, q, q);
      assert Units(s, p)[1..] == Units(s, q);
    } else {
      NextIs(s, q, q);
    }
  }

  /** Up to the buffer's start there is no start code the whole scan has not dealt with. */
  lemma NothingBetween(stream: bytes, chunk: bytes, o: nat, l: int, k: nat)
    requires WellPlaced(stream, o, l) && k < l && o <= k && l < |stream|
    ensures !StartCodeAt(stream + chunk, k)
  {
    if StartCodeAt(stream + chunk, k) {
      StartCodeFromPart(stream, chunk, l, k);
    }
  }

  lemma StartCodeFromPart(stream: bytes, chunk: bytes, l: int, k: nat)
    requires k < l && StartCodeAt(stream, l) && StartCodeAt(stream + chunk, k)
    ensures StartCodeAt(stream, k)
  {
  }

  /** Scanning from the trimmed buffer records what scanning the whole stream does. */
  lemma SameRecorded(c: Cache, stream: bytes, chunk: bytes, o: nat, l: int)
    requires WellPlaced(stream, o, l) && |chunk| <= LARGEST_CHUNK
    ensures var all := stream + chunk;
            From(l) <= |all| && Cut(o, |all|) <= |all|
            && RecordAll(c, UnitsFrom(all, From(l))) == RecordAll(c, UnitsFrom(all, Cut(o, |all|)))
  {
    var all := stream + chunk;
    var o', p := Cut(o, |all|), Next(all, From(l));
    if p < o' {
      LostIsLast(stream, chunk, o, l);
      var q := Next(all, p + 3);
      StartCodesDoNotOverlap(all, p);
      if q < |all| {
        LostUnitIsLong(stream, chunk, o, l, q);
      }
      LongUnitIsDropped(c, all, p, o');
    } else if From(l) <= o' {
    } else {
      forall k: nat | o' <= k < From(l)
        ensures !StartCodeAt(all, k)
      {
        NothingBetween(stream, chunk, o, l, k);
      }
    }
  }

  // ---------------------------------------------------------------------------------
  // Where the buffer starts next

  lemma {:induction false} OneUnitEach(s: bytes, p: nat)
    requires StartCodeAt(s, p)
    ensures Units(s, p) == [] <==> Next(s, p + 3) == |s|
  {
  }

  /** After scanning, only the last start code may lie in the buffer. */
  lemma ResumedPastOthers(s: bytes, o: nat, l: int, j: nat)
    requires o <= |s| && IsLast(s, l) && j < l && StartCodeAt(s, j)
    ensures j < Resumed(s, o)
  {
    if o <= j {
      var p := Next(s, o);
      assert StartCodeAt(s, p);
      StartCodesDoNotOverlap(s, p);
      LastIs(s, p, l);
      if UnitsFrom(s, o) == [] {
        OneUnitEach(s, p);
        assert false;
      }
    }
  }

  /** If the last start code lies ahead of the trimmed buffer, its unit is too long to be kept. */
  lemma LostStaysLong(stream: bytes, chunk: bytes, o: nat, l: int, l': int)
    requires WellPlaced(stream, o, l) && |chunk| <= LARGEST_CHUNK
    requires IsLast(stream + chunk, l') && 0 <= l' < Cut(o, |stream + chunk|)
    ensures |stream + chunk| - l' > MAX_PREAMBLE_BYTES + 2
  {
    if l' < o {
      StartCodeEarly(stream, chunk, l');
      if 0 <= l {
        StartCodeExtended(stream, chunk, l);
      }
      assert l' == l;
    }
  }

  lemma StartCodeEarly(stream: bytes, chunk: bytes, j: nat)
    requires j + 3 <= |stream| && StartCodeAt(stream + chunk, j)
    ensures StartCodeAt(stream, j)
  {
  }

  lemma ResumedIsPlaced(s: bytes, o: nat, l: int)
    requires o <= |s| && (o == 0 || o + 3 <= |s|) && IsLast(s, l)
    requires 0 <= l < o ==> |s| - l > MAX_PREAMBLE_BYTES + 2
    ensures WellPlaced(s, Resumed(s, o), l)
  {
    forall j: nat | j < l && StartCodeAt(s, j)
      ensures j < Resumed(s, o)
    {
      ResumedPastOthers(s, o, l, j);
    }
    if UnitsFrom(s, o) != [] {
      LastIs(s, Next(s, o), l);
    }
  }

  /** The last start code of a stream, or -1. */
  lemma FindLast(stream: bytes) returns (l: int)
    ensures IsLast(stream, l)
  {
    var p := Next(stream, 0);
    if p == |stream| {
      l := -1;
    } else {
      l := Last(stream, p);
      LastIsFinal(stream, p);
    }
  }

  // ---------------------------------------------------------------------------------
  // The bound

  lemma SameAfter(c: Cache, d: Cache, units: seq<bytes>)
    requires SameUnits(c, d)
    ensures SameUnits(RecordAll(c, units), RecordAll(d, units))
  {
    RecordAllScan(d, c.scan, units);
    assert d.(scan := c.scan) == c;
  }

  /** The cache remembers what one scan of the whole stream does, and its buffer is well placed. */
  ghost predicate Faithful(c: Cache, stream: bytes, o: nat, l: int) {
    WellPlaced(stream, o, l) && c.scan == stream[o..] && SameUnits(c, Whole(stream))
  }

  lemma FeedRemembers(c: Cache, stream: bytes, o: nat, l: int, chunk: bytes)
    requires Faithful(c, stream, o, l) && |chunk| <= LARGEST_CHUNK
    ensures SameUnits(Feed(c, chunk), Whole(stream + chunk))
  {
    var all := stream + chunk;
    TrimmedIsTail(stream, chunk, o);
    UnitsOfTail(all, Cut(o, |all|));
    WholeResumes(stream, chunk, l);
    var before, more := UnitsOf(stream), UnitsFrom(all, From(l));
    RecordAllAppend(EMPTY, before, more);
    SameRecorded(c, stream, chunk, o, l);
    SameAfter(c, RecordAll(EMPTY, before), more);
  }

  lemma FeedPlaces(c: Cache, stream: bytes, o: nat, l: int, chunk: bytes) returns (o': nat, l': int)
    requires Faithful(c, stream, o, l) && |chunk| <= LARGEST_CHUNK
    ensures WellPlaced(stream + chunk, o', l') && Feed(c, chunk).scan == (stream + chunk)[o'..]
  {
    var all := stream + chunk;
    l' := FindLast(all);
    var cut := Cut(o, |all|);
    o' := Resumed(all, cut);
    TrimmedIsTail(stream, chunk, o);
    ResidueOfTail(all, cut);
    if 0 <= l' < cut {
      LostStaysLong(stream, chunk, o, l, l');
    }
    ResumedIsPlaced(all, cut, l');
  }

  predicate NoneLonger(chunks: seq<bytes>, n: nat) {
    forall i | 0 <= i < |chunks| :: |chunks[i]| <= n
  }

  lemma {:induction false} ChunksAreFaithful(chunks: seq<bytes>) returns (o: nat, l: int)
    requires NoneLonger(chunks, LARGEST_CHUNK)
    ensures Faithful(FeedAll(EMPTY, chunks), Concat(chunks), o, l)
  {
    if chunks == [] {
      o, l := 0, -1;
      assert UnitsOf([]) == [];
    } else {
      var front, chunk := chunks[..|chunks| - 1], chunks[|chunks| - 1];
      o, l := ChunksAreFaithful(front);
      FeedRemembers(FeedAll(EMPTY, front), Concat(front), o, l, chunk);
      o, l := FeedPlaces(FeedAll(EMPTY, front), Concat(front), o, l, chunk);
    }
  }

  /** Chunking is irrelevant to what is remembered, whether or not the buffer is trimmed. */
  lemma ChunkingIsIrrelevant(chunks: seq<bytes>)
    requires NoneLonger(chunks, LARGEST_CHUNK)
    ensures SameUnits(FeedAll(EMPTY, chunks), Whole(Concat(chunks)))
    ensures Preamble(FeedAll(EMPTY, chunks)) == Preamble(Whole(Concat(chunks)))
  {
    var o, l := ChunksAreFaithful(chunks);
  }

  /** A parameter set of the largest kept size, and two octets of the next start code. */
  function Waiting(): (s: bytes)
    ensures |s| == MAX_PREAMBLE_BYTES + 2
  {
    [0, 0, 1, 7] + seq(MAX_PREAMBLE_BYTES - 4, i => 2) + [0, 0]
  }

  /** The rest of that start code, in a chunk one octet longer than the bound. */
  function TooLong(): (s: bytes)
    ensures |s| == LARGEST_CHUNK + 1
  {
    [1] + seq(LARGEST_CHUNK, i => 2)
  }

  /** Scanned in one go the parameter set is found; behind the trim it is not. */
  lemma UnitsOfBoth()
    ensures UnitsOf(Waiting()) == []
    ensures var s := Waiting() + TooLong();
            UnitsOf(s) == [s[..MAX_PREAMBLE_BYTES]] && UnitsFrom(s, 1) == []
  {
    var s, m := Waiting() + TooLong(), MAX_PREAMBLE_BYTES;
    forall j: nat
      ensures StartCodeAt(s, j) <==> j == 0 || j == m
      ensures StartCodeAt(Waiting(), j) <==> j == 0
    {
    }
    NextIs(Waiting(), 0, 0);
    NextIs(Waiting(), 3, |Waiting()|);
    NextIs(s, 0, 0);
    NextIs(s, 1, m);
    NextIs(s, 3, m);
    NextIs(s, m + 3, |s|);
    assert Units(s, m) == [];
    assert s[0..m] == s[..m];
  }

  lemma FedWithoutUnits(c: Cache, chunk: bytes)
    requires UnitsOf(Trimmed(c.scan + chunk)) == []
    ensures Feed(c, chunk) == c.(scan := Trimmed(c.scan + chunk))
  {
    assert RecordAll(c, []) == c;
  }

  lemma OneUnit(s: bytes, unit: bytes)
    requires UnitsOf(s) == [unit] && Kept(unit, 7)
    ensures Whole(s).sps == unit
  {
    var d := Record(EMPTY, unit);
    assert [unit][1..] == [] && RecordAll(d, []) == d;
    assert RecordAll(EMPTY, [unit]) == d;
  }

  /** A unit that is complete only in the chunk whose trim cuts off its first octet. */
  lemma TrimForgets(c: Cache, first: bytes, second: bytes)
    requires c.scan == [] && UnitsOf(first) == []
    requires |first| <= MAX_SCAN_BYTES && |first + second| == MAX_SCAN_BYTES + 1
    requires UnitsFrom(first + second, 1) == []
    ensures SameUnits(c, Feed(Feed(c, first), second))
  {
    assert c.scan + first == first == Trimmed(first);
    FedWithoutUnits(c, first);
    var d, s := Feed(c, first), first + second;
    UnitsOfTail(s, 1);
    assert Trimmed(d.scan + second) == s[1..];
    FedWithoutUnits(d, second);
  }

  /** One octet more, and a trim makes the scanner forget a unit it should remember. */
  lemma LongChunkForgets() returns (chunks: seq<bytes>)
    ensures NoneLonger(chunks, LARGEST_CHUNK + 1) && !SameUnits(FeedAll(EMPTY, chunks), Whole(Concat(chunks)))
  {
    var first, second := Waiting(), TooLong();
    UnitsOfBoth();
    WaitingIsKept(first + second);
    TrimForgets(EMPTY, first, second);
    OneUnit(first + second, (first + second)[..MAX_PREAMBLE_BYTES]);
    FedTwice(first, second);
    chunks := [first, second];
  }

  lemma WaitingIsKept(s: bytes)
    requires Waiting() <= s
    ensures Kept(s[..MAX_PREAMBLE_BYTES], 7)
  {
    assert s[3] == Waiting()[3] == 7;
  }

  lemma FedTwice(first: bytes, second: bytes)
    ensures FeedAll(EMPTY, [first, second]) == Feed(FeedAll(EMPTY, [first]), second)
    ensures Concat([first, second]) == first + second
  {
    assert [first, second][..1] == [first];
    assert [first][..0] == [];
    assert Concat([first]) == [] + first == first;
  }

  /**
   The bound is exact: with chunks of at most `n` octets, what the scanner remembers is
   independent of how the stream is cut if and only if `n` is at most 3 MiB less two octets.
   */
  lemma ChunkBoundIsExact(n: nat)
    ensures (forall chunks | NoneLonger(chunks, n) :: SameUnits(FeedAll(EMPTY, chunks), Whole(Concat(chunks))))
            <==> n <= LARGEST_CHUNK
  {
    if n <= LARGEST_CHUNK {
      forall chunks | NoneLonger(chunks, n)
        ensures SameUnits(FeedAll(EMPTY, chunks), Whole(Concat(chunks)))
      {
        ChunkingIsIrrelevant(chunks);
      }
    } else {
      var chunks := LongChunkForgets();
      assert NoneLonger(chunks, n);
    }
  }
}
