/** The fields of a stream session that remember media, and the methods that update them. */
module MediaMemory {
  import opened Octets
  import opened AnnexB
  import opened Scanner

  /** `found` lists the start codes of `s` from the first one on, in order. */
  ghost predicate Chain(s: bytes, found: seq<nat>) {
    && (forall i | 0 <= i < |found| :: StartCodeAt(s, found[i]))
    && (found != [] ==> found[0] == Next(s, 0))
    && (forall i | 0 <= i < |found| - 1 :: found[i + 1] == Next(s, found[i] + 3))
  }

  /** Where the search goes on behind the start codes found. */
  function Onward(found: seq<nat>): nat {
    if found == [] then 0 else found[|found| - 1] + 3
  }

  lemma ChainGrows(s: bytes, found: seq<nat>)
    requires Chain(s, found) && Onward(found) <= |s| && Next(s, Onward(found)) < |s|
    ensures Chain(s, found + [Next(s, Onward(found))])
  {
    var more := found + [Next(s, Onward(found))];
    forall i | 0 <= i < |more| - 1
      ensures more[i + 1] == Next(s, more[i] + 3)
    {
      assert more[i] == found[i];
    }
  }

  lemma SomeUnits(c: Cache, chunk: bytes, starts: seq<nat>)
    requires Chain(Trimmed(c.scan + chunk), starts) && |starts| >= 2
    ensures var s := Trimmed(c.scan + chunk);
            Feed(c, chunk) == RecordAll(c.(scan := s), Units(s, starts[0])).(scan := s[Last(s, starts[0])..])
  {
    var s := Trimmed(c.scan + chunk);
    assert starts[0 + 1] == Next(s, starts[0] + 3);
    assert UnitsOf(s) == Units(s, starts[0]) != [];
    RecordAllScan(c, s, Units(s, starts[0]));
  }

  class NativeStreamSession {
    var scan: bytes
    var sps: bytes
    var pps: bytes
    var keyframe: bytes

    function Remembered(): Cache
      reads this
    {
      Cache(scan, sps, pps, keyframe)
    }

    constructor ()
      ensures Remembered() == EMPTY
    {
      scan, sps, pps, keyframe := [], [], [], [];
    }

    /** A new helper has a new encoder state, so everything remembered is stale. */
    method Forget()
      modifies this
      ensures Remembered() == EMPTY
    {
      scan, sps, pps, keyframe := [], [], [], [];
    }

    method RecordUnit(unit: bytes)
      modifies this`sps, this`pps, this`keyframe
      ensures Remembered() == Record(old(Remembered()), unit)
      ensures 3 < |unit| <= 1048576 && unit[3] % 32 == 7 ==> sps == unit
      ensures 3 < |unit| <= 1048576 && unit[3] % 32 == 8 ==> pps == unit
      ensures 3 < |unit| <= 1048576 && unit[3] % 32 == 5 ==> keyframe == unit
    {
      if |unit| <= |START_CODE| || |unit| > MAX_PREAMBLE_BYTES {
        return;
      }
      var kind := NalType(unit[3]);
      if kind == 7 {
        sps := unit;
      } else if kind == 8 {
        pps := unit;
      } else if kind == 5 {
        keyframe := unit;
      }
    }

    method Find(from: nat) returns (position: int)
      requires from <= |scan|
      ensures position == if Next(scan, from) == |scan| then -1 else Next(scan, from)
    {
      position := from;
      while position < |scan|
        invariant from <= position <= |scan| && Next(scan, from) == Next(scan, position)
      {
        if position + 3 <= |scan| && scan[position..position + 3] == START_CODE {
          assert scan[position] == scan[position..position + 3][0];
          return;
        }
        assert position + 3 <= |scan| ==> scan[position..position + 3] ==
                                          [scan[position], scan[position + 1], scan[position + 2]];
        position := position + 1;
      }
      position := -1;
    }

    method FindAll() returns (starts: seq<nat>)
      ensures Chain(scan, starts)
      ensures Onward(starts) <= |scan| && Next(scan, Onward(starts)) == |scan|
    {
      starts := [];
      var position := Find(0);
      while position >= 0
        invariant Chain(scan, starts)
        invariant Onward(starts) <= |scan|
        invariant position == if Next(scan, Onward(starts)) == |scan| then -1 else Next(scan, Onward(starts))
        decreases if position < 0 then 0 else |scan| - position
      {
        ChainGrows(scan, starts);
        starts := starts + [position];
        position := Find(position + 3);
      }
    }

    /** Record the complete units between the start codes found. */
    method RecordUnits(starts: seq<nat>)
      requires Chain(scan, starts) && |starts| >= 2 && Next(scan, starts[|starts| - 1] + 3) == |scan|
      modifies this`sps, this`pps, this`keyframe
      ensures Remembered() == RecordAll(old(Remembered()), Units(scan, starts[0]))
      ensures Last(scan, starts[0]) == starts[|starts| - 1]
    {
      var i := 0;
      while i < |starts| - 1
        invariant 0 <= i < |starts|
        invariant RecordAll(Remembered(), Units(scan, starts[i])) == RecordAll(old(Remembered()), Units(scan, starts[0]))
        invariant Last(scan, starts[i]) == Last(scan, starts[0])
      {
        var unit := scan[starts[i]..starts[i + 1]];
        RecordUnit(unit);
        i := i + 1;
      }
    }

    method ExtendScan(chunk: bytes)
      modifies this`scan
      ensures scan == Trimmed(old(scan) + chunk)
    {
      scan := scan + chunk;
      if |scan| > MAX_SCAN_BYTES {
        scan := scan[|scan| - MAX_SCAN_BYTES..];
      }
    }

    method NoteMedia(chunk: bytes)
      modifies this
      ensures Remembered() == Feed(old(Remembered()), chunk)
    {
      ExtendScan(chunk);
      var starts := FindAll();
      if |starts| < 2 {
        return;
      }
      SomeUnits(old(Remembered()), chunk, starts);
      RecordUnits(starts);
      scan := scan[starts[|starts| - 1]..];
    }

    method PreambleBytes() returns (preamble: bytes)
      ensures preamble == Preamble(Remembered())
    {
      if sps == [] || pps == [] {
        return [];
      }
      preamble := sps + pps + keyframe;
      if |preamble| > MAX_PREAMBLE_BYTES {
        preamble := [];
      }
    }
  }
}
