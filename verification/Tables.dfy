/** The byte tables of the transport: the shuffle table of the packet cipher and the service parameter mask. */
module Tables {
  import opened Octets

  const ROW_0_LOW: bytes := [
    0x7C, 0x9C, 0xE8, 0x4A, 0x13, 0xDE, 0xDC, 0xB2, 0x2F, 0x21, 0x23, 0xE4, 0x30, 0x7B, 0x3D, 0x8C,
    0xBC, 0x0B, 0x27, 0x0C, 0x3C, 0xF7, 0x9A, 0xE7, 0x08, 0x71, 0x96]

  const ROW_0_HIGH: bytes := [
    0x97, 0x85, 0xEF, 0xC1]

  const ROW_1: bytes := [
    0x1F, 0xC4, 0xDB, 0xA1, 0xC2, 0xEB, 0xD9, 0x01, 0xFA, 0xBA, 0x3B, 0x05, 0xB8, 0x15, 0x87, 0x83,
    0x28, 0x72, 0xD1, 0x8B, 0x5A, 0xD6, 0xDA, 0x93, 0x58, 0xFE, 0xAA, 0xCC, 0x6E, 0x1B, 0xF0, 0xA3]

  const ROW_2: bytes := [
    0x88, 0xAB, 0x43, 0xC0, 0x0D, 0xB5, 0x45, 0x38, 0x4F, 0x50, 0x22, 0x66, 0x20, 0x7F, 0x07, 0x5B,
    0x14, 0x98, 0x1D, 0x9B, 0xA7, 0x2A, 0xB9, 0xA8, 0xCB, 0xF1, 0xFC, 0x49, 0x47, 0x06, 0x3E, 0xB1]

  const ROW_3: bytes := [
    0x0E, 0x04, 0x3A, 0x94, 0x5E, 0xEE, 0x54, 0x11, 0x34, 0xDD, 0x4D, 0xF9, 0xEC, 0xC7, 0xC9, 0xE3,
    0x78, 0x1A, 0x6F, 0x70, 0x6B, 0xA4, 0xBD, 0xA9, 0x5D, 0xD5, 0xF8, 0xE5, 0xBB, 0x26, 0xAF, 0x42]

  const ROW_4: bytes := [
    0x37, 0xD8, 0xE1, 0x02, 0x0A, 0xAE, 0x5F, 0x1C, 0xC5, 0x73, 0x09, 0x4E, 0x69, 0x24, 0x90, 0x6D,
    0x12, 0xB3, 0x19, 0xAD, 0x74, 0x8A, 0x29, 0x40, 0xF5, 0x2D, 0xBE, 0xA5, 0x59, 0xE0, 0xF4, 0x79]

  const ROW_5: bytes := [
    0xD2, 0x4B, 0xCE, 0x89, 0x82, 0x48, 0x84, 0x25, 0xC6, 0x91, 0x2B, 0xA2, 0xFB, 0x8F, 0xE9, 0xA6,
    0xB0, 0x9E, 0x3F, 0x65, 0xF6, 0x03, 0x31, 0x2E, 0xAC, 0x0F, 0x95, 0x2C, 0x5C, 0xED, 0x39, 0xB7]

  const ROW_6: bytes := [
    0x33, 0x6C, 0x56, 0x7E, 0xB4, 0xA0, 0xFD, 0x7A, 0x81, 0x53, 0x51, 0x86, 0x8D, 0x9F, 0x77, 0xFF,
    0x6A, 0x80, 0xDF, 0xE2, 0xBF, 0x10, 0xD7, 0x75, 0x64, 0x57, 0x76, 0xF3, 0x55, 0xCD, 0xD0, 0xC8]

  const ROW_7: bytes := [
    0x18, 0xE6, 0x36, 0x41, 0x62, 0xCF, 0x99, 0xF2, 0x32, 0x4C, 0x67, 0x60, 0x61, 0x92, 0xCA, 0xD3,
    0xEA, 0x63, 0x7D, 0x16, 0xB6, 0x8E, 0xD4, 0x68, 0x35, 0xC3, 0x52, 0x9D, 0x46, 0x44, 0x1E, 0x17]

  lemma FirstRowHasNoOtherZero()
    ensures |ROW_0_LOW| == 27 && 0x00 !in ROW_0_LOW && |ROW_0_HIGH| == 4 && 0x00 !in ROW_0_HIGH
  {
  }

  lemma Row1HasNoZero()
    ensures |ROW_1| == 32 && 0x00 !in ROW_1
  {
  }

  lemma Row2HasNoZero()
    ensures |ROW_2| == 32 && 0x00 !in ROW_2
  {
  }

  lemma Row3HasNoZero()
    ensures |ROW_3| == 32 && 0x00 !in ROW_3
  {
  }

  lemma Row4HasNoZero()
    ensures |ROW_4| == 32 && 0x00 !in ROW_4
  {
  }

  lemma Row5HasNoZero()
    ensures |ROW_5| == 32 && 0x00 !in ROW_5
  {
  }

  lemma Row6HasNoZero()
    ensures |ROW_6| == 32 && 0x00 !in ROW_6
  {
  }

  lemma Row7HasNoZero()
    ensures |ROW_7| == 32 && 0x00 !in ROW_7
  {
  }

  /** The shuffle table; it has one zero, at position 27. */
  function Shuffle(): (t: bytes)
    ensures |t| == 0x100
    ensures forall i | 0 <= i < 0x100 :: t[i] == 0x00 <==> i == 27
  {
    FirstRowHasNoOtherZero();
    Row1HasNoZero();
    Row2HasNoZero();
    Row3HasNoZero();
    Row4HasNoZero();
    Row5HasNoZero();
    Row6HasNoZero();
    Row7HasNoZero();
    (ROW_0_LOW + [0x00] + ROW_0_HIGH) + ROW_1 + ROW_2 + ROW_3 + ROW_4 + ROW_5 + ROW_6 + ROW_7
  }

  const LOOKUP_LOW: bytes := [
    0x49, 0x59, 0x43, 0x3D, 0xB5, 0xBF, 0x6D, 0xA3, 0x47, 0x53, 0x4F, 0x61, 0x65, 0xE3, 0x71, 0xE9,
    0x67, 0x7F, 0x02, 0x03, 0x0B, 0xAD, 0xB3, 0x89, 0x2B, 0x2F, 0x35, 0xC1, 0x6B, 0x8B, 0x95, 0x97]

  const LOOKUP_HIGH: bytes := [
    0x11, 0xE5, 0xA7, 0x0D, 0xEF, 0xF1, 0x05, 0x07, 0x83, 0xFB, 0x9D, 0x3B, 0xC5, 0xC7, 0x13, 0x17,
    0x1D, 0x1F, 0x25, 0x29, 0xD3, 0xDF]

  /** The table that masks a service parameter, used cyclically. */
  function DecodeLookup(): (t: bytes)
    ensures |t| == 54
  {
    LOOKUP_LOW + LOOKUP_HIGH
  }
}
