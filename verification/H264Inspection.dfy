/** The Python and the C inspection of an H.264 payload, and exactly where they differ. */
module H264Inspection {
  import opened Octets
  import opened AnnexB

  /** A start code whose NAL header is in the payload and of a type that occurs in a stream. */
  predicate UnitAt(p: bytes, i: nat) {
    i + 3 < |p| && StartCodeAt(p, i) && 1 <= NalType(p[i + 3]) <= 12
  }

  predicate KeyUnitAt(p: bytes, i: nat) {
    UnitAt(p, i) && NalType(p[i + 3]) in {5, 7}
  }

  /** Three octets 0, 0, 1, and a header of one of the types 1 to 12. */
  lemma UnitOctets(p: bytes, i: nat)
    ensures UnitAt(p, i) <==> i + 3 < |p| && p[i..i + 3] == [0, 0, 1] && p[i + 3] % 32 in {1, 2, 3, 4, 5, 6, 7, 8, 9, 10, 11, 12}
  {
  }

  /** Octets 0, 0, 1 and a header of type 5 or 7, whatever the three bits above the type. */
  predicate KeyOctetsAt(p: bytes, i: nat) {
    && i + 3 < |p| && p[i..i + 3] == [0, 0, 1]
    && p[i + 3] in {0x05, 0x25, 0x45, 0x65, 0x85, 0xA5, 0xC5, 0xE5, 0x07, 0x27, 0x47, 0x67, 0x87, 0xA7, 0xC7, 0xE7}
  }

  lemma KeyUnitOctets(p: bytes, i: nat)
    ensures KeyUnitAt(p, i) <==> KeyOctetsAt(p, i)
  {
    if i + 3 < |p| {
      HeadersOfTypes(p[i + 3]);
    }
  }

  lemma KeyUnitsOctets(p: bytes)
    ensures forall i: nat :: KeyUnitAt(p, i) <==> KeyOctetsAt(p, i)
  {
    forall i: nat
      ensures KeyUnitAt(p, i) <==> KeyOctetsAt(p, i)
    {
      KeyUnitOctets(p, i);
    }
  }

  /**
   The Python scan finds exactly the three-octet start codes: its branch for the
   four-octet form adds nothing.
   */
  method InspectH264(p: bytes) returns (valid: bool, keyframe: bool)
    ensures valid <==> exists i: nat :: UnitAt(p, i)
    ensures keyframe <==> exists i: nat :: KeyUnitAt(p, i)
    ensures forall i: nat | KeyOctetsAt(p, i) :: valid && keyframe
  {
    valid, keyframe := false, false;
    ghost var unit: nat, key: nat := 0, 0;
    for index := 0 to |p|
      invariant valid ==> UnitAt(p, unit)
      invariant keyframe ==> KeyUnitAt(p, key)
      invariant !valid ==> forall i: nat | i < index :: !UnitAt(p, i)
      invariant !keyframe ==> forall i: nat | i < index :: !KeyUnitAt(p, i)
    {
      var nal := -1;
      if index + 3 <= |p| && p[index] == 0 && p[index + 1] == 0 && p[index + 2] == 1 {
        nal := index + 3;
      } else if index + 4 <= |p| && p[index] == 0 && p[index + 1] == 0 && p[index + 2] == 0 && p[index + 3] == 1 {
        nal := index + 4;
      }
      if 0 <= nal < |p| {
        var kind := NalType(p[nal]);
        if 1 <= kind <= 12 {
          valid, unit := true, nal - 3;
          if kind in {5, 7} {
            keyframe, key := true, nal - 3;
          }
        }
      }
    }
    KeyUnitsOctets(p);
  }

  /**
   The start codes the C scan can see: those with another octet behind the NAL header, and
   those it also meets in their four-octet form.
   */
  predicate SeenByC(p: bytes, i: nat) {
    i + 4 < |p| || (0 < i <= |p| && p[i - 1] == 0)
  }

  /** Before turn `i` the C scan has met the start codes before `i`, and one at `i` behind a zero. */
  predicate Scanned(p: bytes, i: nat, j: nat) {
    j < i || (j == i && 0 < i <= |p| && p[i - 1] == 0)
  }

  method InspectH264Payload(p: bytes, keyframeSeen: bool) returns (valid: bool, keyframe: bool)
    ensures valid <==> exists i: nat :: UnitAt(p, i) && SeenByC(p, i)
    ensures keyframe <==> keyframeSeen || exists i: nat :: KeyUnitAt(p, i) && SeenByC(p, i)
  {
    valid, keyframe := false, keyframeSeen;
    ghost var unit: nat, key: nat := 0, 0;
    var i := 0;
    while i + 4 < |p|
      invariant valid ==> UnitAt(p, unit) && SeenByC(p, unit)
      invariant keyframe && !keyframeSeen ==> KeyUnitAt(p, key) && SeenByC(p, key)
      invariant keyframeSeen ==> keyframe
      invariant !valid ==> forall j: nat | Scanned(p, i, j) :: !UnitAt(p, j)
      invariant !keyframe ==> forall j: nat | Scanned(p, i, j) :: !KeyUnitAt(p, j)
    {
      var nal := 0;
      if p[i] == 0 && p[i + 1] == 0 && p[i + 2] == 1 {
        nal := i + 3;
      } else if p[i] == 0 && p[i + 1] == 0 && p[i + 2] == 0 && p[i + 3] == 1 {
        nal := i + 4;
      }
      if nal != 0 && nal < |p| {
        var kind := NalType(p[nal]);
        if 1 <= kind <= 12 {
          valid, unit := true, nal - 3;
          if kind == 5 || kind == 7 {
            keyframe, key := true, nal - 3;
          }
        }
      }
      i := i + 1;
    }
  }

  /** The payload ends in a bare three-octet start code and its NAL header. */
  predicate EndsUnseen(p: bytes) {
    |p| >= 4 && UnitAt(p, |p| - 4) && (|p| == 4 || p[|p| - 5] != 0)
  }

  /**
   The two scans disagree on a flag exactly when the only unit that sets it is a three-octet
   start code, with no zero before it, whose NAL header is the last octet of the payload.
   */
  method CompareScans(p: bytes) returns (valid: bool, validC: bool, keyframe: bool, keyframeC: bool)
    ensures valid <==> exists i: nat :: UnitAt(p, i)
    ensures keyframe <==> exists i: nat :: KeyUnitAt(p, i)
    ensures (validC ==> valid) && (keyframeC ==> keyframe)
    ensures valid != validC <==> EndsUnseen(p) && forall i: nat | UnitAt(p, i) :: i == |p| - 4
    ensures keyframe != keyframeC <==>
            EndsUnseen(p) && KeyUnitAt(p, |p| - 4) && forall i: nat | KeyUnitAt(p, i) :: i == |p| - 4
  {
    valid, keyframe := InspectH264(p);
    validC, keyframeC := InspectH264Payload(p, false);
  }
}
