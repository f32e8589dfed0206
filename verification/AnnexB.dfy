/** The byte stream format of Annex B of ITU-T H.264: start codes and NAL unit types. */
module AnnexB {
  import opened Octets

  const START_CODE: bytes := [0x00, 0x00, 0x01]

  /** The NAL unit type of a header octet (section 7.4.1 of ITU-T H.264). */
  function NalType(b: byte): nat {
    b % 0x20
  }

  /** The type is in the low five bits, whatever the three bits above them. */
  lemma TypeIsLowBits(high: nat, kind: nat)
    requires high < 8 && kind < 32
    ensures high * 32 + kind < 0x100 && NalType(high * 32 + kind) == kind
  {
  }

  /** The header octets of the types a decoder starts from: parameter sets and keyframe slices. */
  lemma HeadersOfTypes(b: byte)
    ensures NalType(b) == 7 <==> b in {0x07, 0x27, 0x47, 0x67, 0x87, 0xA7, 0xC7, 0xE7}
    ensures NalType(b) == 8 <==> b in {0x08, 0x28, 0x48, 0x68, 0x88, 0xA8, 0xC8, 0xE8}
    ensures NalType(b) == 5 <==> b in {0x05, 0x25, 0x45, 0x65, 0x85, 0xA5, 0xC5, 0xE5}
  {
  }

  predicate StartCodeAt(p: bytes, i: nat) {
    i + 3 <= |p| && p[i] == 0 && p[i + 1] == 0 && p[i + 2] == 1
  }
}
