/**
 The octets that the repository's own tests expect of the transport, as facts about the model.
 */
module Vectors {
  import opened Octets
  import opened Bits
  import opened Tables
  import opened Cipher
  import opened Channel
  import opened Packets
  import opened Environment
  import opened Rendezvous
  import opened Turns
  import opened Layouts
  import W = Wire
  import H = H264Inspection
  import R = ResultParser
  import C = Commands
  import O = Opening
  import S = ServiceParameter

  // ---------------------------------------------------------------------------------
  // The cipher

  /** The octets add up, and so do their thirds. */
  predicate AddsUp(key: bytes, sum: nat, thirds: nat) {
    Sum(key) == sum && Thirds(key) == thirds
  }

  lemma OneAddsUp(v: byte)
    ensures AddsUp([v], v, v / 3)
  {
    assert [v][..0] == [];
  }

  lemma JoinedAddUp(a: bytes, sum: nat, thirds: nat, b: bytes, moreSum: nat, moreThirds: nat)
    requires AddsUp(a, sum, thirds) && AddsUp(b, moreSum, moreThirds)
    ensures AddsUp(a + b, sum + moreSum, thirds + moreThirds)
  {
    SumsJoined(a, b);
  }

  lemma TwoAddUp(a: byte, b: byte)
    ensures AddsUp([a, b], a as nat + b as nat, a / 3 + b / 3)
  {
    OneAddsUp(a);
    OneAddsUp(b);
    assert [a, b] == [a] + [b];
    JoinedAddUp([a], a, a / 3, [b], b, b / 3);
  }

  lemma FourAddUp(a: byte, b: byte, c: byte, d: byte)
    ensures AddsUp([a, b, c, d], a as nat + b as nat + (c as nat + d as nat), a / 3 + b / 3 + (c / 3 + d / 3))
  {
    TwoAddUp(a, b);
    TwoAddUp(c, d);
    assert [a, b, c, d] == [a, b] + [c, d];
    JoinedAddUp([a, b], a as nat + b as nat, a / 3 + b / 3, [c, d], c as nat + d as nat, c / 3 + d / 3);
  }

  /** "SSD@cs2-network." */
  function Key(): bytes {
    ([0x53, 0x53, 0x44, 0x40] + [0x63, 0x73, 0x32, 0x2D]) + ([0x6E, 0x65, 0x74, 0x77] + [0x6F, 0x72, 0x6B, 0x2E])
  }

  lemma KeyAddsUp()
    ensures AddsUp(Key(), 1431, 470)
  {
    FourAddUp(0x53, 0x53, 0x44, 0x40);
    FourAddUp(0x63, 0x73, 0x32, 0x2D);
    FourAddUp(0x6E, 0x65, 0x74, 0x77);
    FourAddUp(0x6F, 0x72, 0x6B, 0x2E);
    JoinedAddUp([0x53, 0x53, 0x44, 0x40], 298, 97, [0x63, 0x73, 0x32, 0x2D], 309, 102);
    JoinedAddUp([0x6E, 0x65, 0x74, 0x77], 446, 146, [0x6F, 0x72, 0x6B, 0x2E], 378, 125);
    JoinedAddUp([0x53, 0x53, 0x44, 0x40] + [0x63, 0x73, 0x32, 0x2D], 607, 199, [0x6E, 0x65, 0x74, 0x77] + [0x6F, 0x72, 0x6B, 0x2E], 824, 271);
  }

  /** The values that the first octets of a packet pick from. */
  lemma Hashed(key: bytes)
    requires AddsUp(key, 1431, 470)
    ensures HashOf(key).h0 == 0x97 && HashOf(key).h1 == 0x69 && HashOf(key).h2 == 0xD6
  {
    HashIsSum(key);
    HashHasThirds(key);
    Residues(HashOf(key).h0, HashOf(key).h1, HashOf(key).h2, Sum(key), Thirds(key));
  }

  lemma Residues(h0: byte, h1: byte, h2: byte, sum: nat, thirds: nat)
    requires sum == 1431 && thirds == 470 && h0 == sum % 0x100 && (h0 + h1) % 0x100 == 0 && h2 == thirds % 0x100
    ensures h0 == 0x97 && h1 == 0x69 && h2 == 0xD6
  {
  }

  lemma Places()
    ensures Shuffle()[151] == 0x40 && Shuffle()[26] == 0x96 && Shuffle()[108] == 0xEC && Shuffle()[131] == 0x02
  {
    FirstRowHasNoOtherZero();
    Row1HasNoZero();
    Row2HasNoZero();
    Row3HasNoZero();
    Row4HasNoZero();
    assert ROW_0_LOW[26] == 0x96;
    assert ROW_3[12] == 0xEC;
    assert ROW_4[3] == 0x02;
    assert ROW_4[23] == 0x40;
  }

  lemma Encoded(t: Table, h: Hash, previous: byte, clear: byte, rest: bytes, mask: byte, encoded: byte)
    requires Mask(t, h, previous) == mask && Xor(clear, mask) == encoded
    ensures EncryptAfter(t, h, previous, [clear] + rest) == [encoded] + EncryptAfter(t, h, encoded, rest)
  {
    assert ([clear] + rest)[1..] == rest;
  }

  lemma FourXors()
    ensures Xor(0xF1, 0x40) == 0xB1 && Xor(0x00, 0x96) == 0x96 && Xor(0x00, 0xEC) == 0xEC && Xor(0x00, 0x02) == 0x02
  {
  }

  lemma FourPositions(h: Hash)
    requires h.h0 == 0x97 && h.h1 == 0x69 && h.h2 == 0xD6
    ensures Position(h, 0x00) == 151 && Position(h, 0xB1) == 26 && Position(h, 0x96) == 108 && Position(h, 0xEC) == 131
  {
  }

  /** With these four masks, whatever the table. */
  lemma FourEncoded(t: Table, h: Hash)
    requires Mask(t, h, 0x00) == 0x40 && Mask(t, h, 0xB1) == 0x96 && Mask(t, h, 0x96) == 0xEC && Mask(t, h, 0xEC) == 0x02
    ensures EncryptAfter(t, h, 0, [0xF1] + ([0x00] + ([0x00] + ([0x00] + [])))) == [0xB1] + ([0x96] + ([0xEC] + ([0x02] + [])))
  {
    FourXors();
    Encoded(t, h, 0x00, 0xF1, [0x00] + ([0x00] + ([0x00] + [])), 0x40, 0xB1);
    Encoded(t, h, 0xB1, 0x00, [0x00] + ([0x00] + []), 0x96, 0x96);
    Encoded(t, h, 0x96, 0x00, [0x00] + [], 0xEC, 0xEC);
    Encoded(t, h, 0xEC, 0x00, [], 0x02, 0x02);
  }

  lemma FourOctets(a: byte, b: byte, c: byte, d: byte)
    ensures [a] + ([b] + ([c] + ([d] + []))) == [a, b, c, d]
  {
  }

  lemma GreetingWith(key: bytes)
    requires AddsUp(key, 1431, 470)
    ensures W.Encrypt(key, [0xF1, 0x00, 0x00, 0x00]) == [0xB1, 0x96, 0xEC, 0x02]
  {
    Hashed(key);
    Places();
    FourPositions(HashOf(key));
    FourEncoded(Shuffle(), HashOf(key));
    FourOctets(0xF1, 0x00, 0x00, 0x00);
    FourOctets(0xB1, 0x96, 0xEC, 0x02);
  }

  /** The greeting under the public key, encrypted and decrypted. */
  lemma GreetingVector()
    ensures W.Encrypt(Key(), [0xF1, 0x00, 0x00, 0x00]) == [0xB1, 0x96, 0xEC, 0x02]
    ensures W.Decrypt(Key(), [0xB1, 0x96, 0xEC, 0x02]) == [0xF1, 0x00, 0x00, 0x00]
  {
    KeyAddsUp();
    GreetingWith(Key());
    W.CipherIsBijective(Key(), [0xF1, 0x00, 0x00, 0x00]);
  }

  // ---------------------------------------------------------------------------------
  // Envelopes

  /** Lookups, data and greetings travel encrypted; punches, readiness and acknowledgements both ways. */
  method Envelopes(key: bytes) returns (lookup: seq<bytes>, punch: seq<bytes>, data: seq<bytes>, ready: seq<bytes>, ack: seq<bytes>)
    ensures lookup == [W.Encrypt(key, [0xF1, 0x20, 0x00, 0x00])]
    ensures punch == [[0xF1, 0x41, 0x00, 0x00], W.Encrypt(key, [0xF1, 0x41, 0x00, 0x00])]
    ensures data == [W.Encrypt(key, [0xF1, 0xD0, 0x00, 0x00])]
    ensures ready == [[0xF1, 0x42, 0x00, 0x00], W.Encrypt(key, [0xF1, 0x42, 0x00, 0x00])]
    ensures ack == [[0xF1, 0xD1, 0x00, 0x00], W.Encrypt(key, [0xF1, 0xD1, 0x00, 0x00])]
  {
    KindOf(0x20);
    KindOf(0x41);
    KindOf(0xD0);
    KindOf(0x42);
    KindOf(0xD1);
    lookup := W.EncodeWirePackets(key, [0xF1, 0x20, 0x00, 0x00]);
    punch := W.EncodeWirePackets(key, [0xF1, 0x41, 0x00, 0x00]);
    data := W.EncodeWirePackets(key, [0xF1, 0xD0, 0x00, 0x00]);
    ready := W.EncodeWirePackets(key, [0xF1, 0x42, 0x00, 0x00]);
    ack := W.EncodeWirePackets(key, [0xF1, 0xD1, 0x00, 0x00]);
  }

  lemma KindOf(second: byte)
    ensures Kind([0xF1, second, 0x00, 0x00]) == [0xF1, second]
    ensures [0xF1, second] in W.ENCRYPTED_KINDS <==> second in {0x00, 0x20, 0x67, 0x70, 0x72, 0xD0, 0xD1, 0xE0, 0xE1, 0xF0}
    ensures [0xF1, second] in W.DUAL_KINDS <==> second in {0x41, 0x42, 0x43, 0x80, 0x83, 0xD1, 0xE1}
  {
    W.KindsAre(second);
  }

  /** The service parameter of a server whose name begins with the digit one begins with the letters EB. */
  lemma FirstLetters()
    ensures S.Letters(S.Raw(DecodeLookup(), [0x31])) == [0x45, 0x42]
  {
    OneRaw();
    assert [0x41][..0] == [];
    assert S.Letters([0x41]) == S.Letters([]) + [0x45, 0x42];
  }

  lemma OneRaw()
    ensures S.Raw(DecodeLookup(), [0x31]) == [0x41]
  {
    assert [0x31][..0] == [];
    assert DecodeLookup()[0] == 0x49;
    assert Xor(0x31, 57) == 0x08;
    assert Xor(0x08, 0x49) == 0x41;
    assert S.Raw(DecodeLookup(), [0x31]) == S.Raw(DecodeLookup(), []) + [Xor(Xor(0x31, 57), 0x49)];
  }

  // ---------------------------------------------------------------------------------
  // Layouts

  /** 192.168.3.60, port 0x1234 */
  const HOME: bytes := [192, 168, 3, 60]

  lemma AddressVector()
    ensures EncodeAddress(HOME, 0x1234) ==
            Some([0x00, 0x02, 0x34, 0x12, 0x3C, 0x03, 0xA8, 0xC0, 0x00, 0x00, 0x00, 0x00, 0x00, 0x00, 0x00, 0x00])
    ensures DecodeAddress([0x00, 0x02, 0x34, 0x12, 0x3C, 0x03, 0xA8, 0xC0, 0x00, 0x00, 0x00, 0x00, 0x00, 0x00, 0x00, 0x00]) ==
            Some(Address(HOME, 0x1234))
  {
    EncodedOctets(HOME, 0x1234);
    AddressRoundTrip(Address(HOME, 0x1234));
  }

  /** The identifier VSTN123456ABCDE; 123456 is 0x0001E240. */
  lemma UidVector(platform: O.Platform)
    requires forall c | c in {0x56, 0x53, 0x54, 0x4E} :: platform.isAlnum(c)
    requires forall c | 0x31 <= c <= 0x36 :: platform.isDigit(c)
    requires forall c | 0x41 <= c <= 0x45 :: platform.isAlpha(c)
    requires platform.number([0x31, 0x32, 0x33, 0x34, 0x35, 0x36]) == Some(123456)
    ensures O.EncodeUid(UID, platform) ==
            Some([0x56, 0x53, 0x54, 0x4E, 0x00, 0x00, 0x00, 0x00, 0x00, 0x01, 0xE2, 0x40,
                  0x41, 0x42, 0x43, 0x44, 0x45, 0x00, 0x00, 0x00])
  {
    assert UID[4..10] == [0x31, 0x32, 0x33, 0x34, 0x35, 0x36];
    assert forall i | 0 <= i < 4 :: UID[i] in {0x56, 0x53, 0x54, 0x4E};
    O.UidOctets(UID, platform);
    var r := O.EncodeUid(UID, platform).value;
    SumOfOctets(r[8], r[9], r[10], r[11]);
    assert r[4] == 0 && r[5] == 0 && r[6] == 0 && r[7] == 0 && r[17] == 0 && r[18] == 0 && r[19] == 0;
    assert r[0] == UID[0] && r[1] == UID[1] && r[2] == UID[2] && r[3] == UID[3];
    assert r[12] == UID[10] && r[13] == UID[11] && r[14] == UID[12] && r[15] == UID[13] && r[16] == UID[14];
    TwentyOctets(r);
  }

  lemma TwentyOctets(r: bytes)
    requires |r| == 20
    ensures r == [r[0], r[1], r[2], r[3], r[4], r[5], r[6], r[7], r[8], r[9],
                  r[10], r[11], r[12], r[13], r[14], r[15], r[16], r[17], r[18], r[19]]
  {
  }

  const UID: seq<nat> := [0x56, 0x53, 0x54, 0x4E, 0x31, 0x32, 0x33, 0x34, 0x35, 0x36, 0x41, 0x42, 0x43, 0x44, 0x45]

  lemma SumOfOctets(a: byte, b: byte, c: byte, d: byte)
    requires 16777216 * (a as int) + 65536 * (b as int) + 256 * (c as int) + d as int == 123456
    ensures a == 0x00 && b == 0x01 && c == 0xE2 && d == 0x40
  {
  }

  /** 192.0.2.10, port 32100 */
  const RELAY: Address := Address([192, 0, 2, 10], 32100)

  lemma RelayVectors(uid: bytes)
    ensures RequestFromAck(uid, RELAY, [0xF1, 0x73, 0x00, 0x08, 0x12, 0x34, 0x56, 0x78, 0x9C, 0x40, 0x00, 0x00]) ==
            Some([0xF1, 0x80, 0x00, 0x28] + uid
                 + [0x00, 0x02, 0x40, 0x9C, 10, 2, 0, 192, 0, 0, 0, 0, 0, 0, 0, 0] + [0x12, 0x34, 0x56, 0x78])
    ensures RelayPunch(uid, [0x12, 0x34, 0x56, 0x78]) ==
            [0xF1, 0x83, 0x00, 0x1C] + [0x12, 0x34, 0x56, 0x78] + uid + [0x00, 0x00, 0x00, 0x00]
  {
    var answer := [0xF1, 0x73, 0x00, 0x08, 0x12, 0x34, 0x56, 0x78, 0x9C, 0x40, 0x00, 0x00];
    assert answer[4..8] == [0x12, 0x34, 0x56, 0x78];
    RequestOctets(uid, RELAY, answer);
    RelayPackets(uid, [], [0x12, 0x34, 0x56, 0x78]);
  }

  lemma RelayListVectors()
    ensures RELAY in RelayList([0xF1, 0x69, 0x00, 0x14, 0x01, 0x00, 0x00, 0x00] + Sixteen([192, 0, 2, 10], 0x64, 0x7D))
    ensures RelayList([0xF1, 0x69, 0x00, 0x04, 0x21, 0x00, 0x00, 0x00]) == {}
    ensures RelayList([0xF1, 0x69, 0x00, 0x14, 0x01, 0x00, 0x00, 0x00]) == {}
    ensures RelayList([0xF1, 0x68, 0x00, 0x00]) == {}
  {
    var entry := Sixteen([192, 0, 2, 10], 0x64, 0x7D);
    var list := [0xF1, 0x69, 0x00, 0x14, 0x01, 0x00, 0x00, 0x00] + entry;
    assert list[8..24] == entry;
    RelayEntry(entry);
    assert |list| == 24 && list[0] == 0xF1 && list[1] == 0x69 && list[4] == 0x01;
    OneListed(list, RELAY);
    assert list[..2] == RELAY_LIST;
  }

  lemma RelayEntry(entry: bytes)
    requires entry == Sixteen([192, 0, 2, 10], 0x64, 0x7D)
    ensures DecodeAddress(entry) == Some(RELAY)
  {
    assert entry[4] == 10 && entry[5] == 2 && entry[6] == 0 && entry[7] == 192;
    assert RELAY.host[0] == 192;
    AddressOctets(entry, RELAY);
  }

  lemma OneListed(list: bytes, a: Address)
    requires |list| == 24 && DecodeAddress(list[8..24]) == Some(a)
    ensures a in ListedAmong(list, 1)
  {
    assert ListedAmong(list, 1) == ListedAmong(list, 0) + {a};
  }

  // ---------------------------------------------------------------------------------
  // Turns

  const FIRST: bytes := [0x66, 0x69, 0x72, 0x73, 0x74]
  const SECOND: bytes := [0x73, 0x65, 0x63, 0x6F, 0x6E, 0x64]

  /** The second frame first and then the first one: both are appended, in order. */
  lemma ReorderVector()
    ensures Accept(Accept(FRESH, 1, SECOND), 0, FIRST) == Receiver(2, FIRST + SECOND, map[])
  {
    var held := Receiver(0, [], map[1 := SECOND]);
    assert Accept(FRESH, 1, SECOND) == held;
    var appended := Receiver(1, FIRST, map[1 := SECOND]);
    assert AppendExpected(held, FIRST) == appended;
    assert ReleaseExpected(appended) == Receiver(2, FIRST + SECOND, map[]);
    assert Drain(appended) == Drain(Receiver(2, FIRST + SECOND, map[])) == Receiver(2, FIRST + SECOND, map[]);
  }

  /** Media from another port of the peer's host is heard, and a packet from another host is not. */
  lemma DriftVector(channels: seq<Receiver>, port: nat, chunk: bytes)
    requires |channels| == 8 && channels[1] == FRESH && |chunk| <= 1024
    ensures Heard(channels, Some(RELAY), Some((DataPacket(1, 0, chunk), Address(RELAY.host, port))))[1].buffer == chunk
    ensures Heard(channels, Some(RELAY), Some((DataPacket(1, 0, chunk), Address([198, 51, 100, 7], port)))) == channels
  {
    assert RELAY.host[0] == 192 && [198, 51, 100, 7][0] == 198;
    DataIsHeard(channels, RELAY, Address(RELAY.host, port), chunk);
    FirstIsAppended(chunk);
    OtherHostIsNot(channels, RELAY, Address([198, 51, 100, 7], port), DataPacket(1, 0, chunk));
  }

  lemma OtherHostIsNot(channels: seq<Receiver>, peer: Address, from: Address, packet: bytes)
    requires |channels| == 8 && from.host != peer.host
    ensures Heard(channels, Some(peer), Some((packet, from))) == channels
  {
  }

  lemma DataIsHeard(channels: seq<Receiver>, peer: Address, from: Address, chunk: bytes)
    requires |channels| == 8 && |chunk| <= 1024 && from.host == peer.host
    ensures Heard(channels, Some(peer), Some((DataPacket(1, 0, chunk), from)))[1] == Accept(channels[1], 0, chunk)
  {
    DataRoundTrip(1, 0, chunk);
    DataKind(chunk);
    FrameIsHeard(channels, peer, from, DataPacket(1, 0, chunk), chunk);
  }

  lemma DataKind(chunk: bytes)
    requires |chunk| <= 1024
    ensures Kind(DataPacket(1, 0, chunk)) == DATA
  {
    StartIsKind(DATA, PutBig16(4 + |chunk|), [0xD1, 1], PutBig16(0), chunk);
  }

  lemma StartIsKind(kind: bytes, a: bytes, b: bytes, c: bytes, d: bytes)
    requires |kind| == 2
    ensures Kind(kind + a + b + c + d) == kind
  {
  }

  lemma FrameIsHeard(channels: seq<Receiver>, peer: Address, from: Address, packet: bytes, chunk: bytes)
    requires |channels| == 8 && from.host == peer.host && Kind(packet) == DATA && ParseData(packet) == Some(Frame(1, 0, chunk))
    ensures Heard(channels, Some(peer), Some((packet, from)))[1] == Accept(channels[1], 0, chunk)
  {
  }

  lemma FirstIsAppended(chunk: bytes)
    ensures Accept(FRESH, 0, chunk).buffer == chunk
  {
    assert [] + chunk == chunk;
  }

  // ---------------------------------------------------------------------------------
  // Commands

  /** "result=0" and `<result = "-1">` */
  const ZERO: bytes := [0x72, 0x65, 0x73, 0x75, 0x6C, 0x74, 0x3D, 0x30]
  const MINUS_ONE: bytes := [0x3C, 0x72, 0x65, 0x73, 0x75, 0x6C, 0x74, 0x20, 0x3D, 0x20, 0x22, 0x2D, 0x31, 0x22, 0x3E]

  /** "unrelated" */
  lemma NoResultVector()
    ensures R.FirstFrom([0x75, 0x6E, 0x72, 0x65, 0x6C, 0x61, 0x74, 0x65, 0x64], 0) == None
  {
    var p: bytes := [0x75, 0x6E, 0x72, 0x65, 0x6C, 0x61, 0x74, 0x65, 0x64];
    assert p[0..6][0] == 0x75 && p[1..7][0] == 0x6E && p[2..8][2] == 0x6C && p[3..9][0] == 0x65;
    assert R.WORD[0] == 0x72 && R.WORD[2] == 0x73;
    R.SkipMarkers(p, 0, 4);
  }

  lemma ZeroVector()
    ensures R.FirstFrom(ZERO, 0) == Some(0)
  {
    assert ZERO[0..6] == [0x72, 0x65, 0x73, 0x75, 0x6C, 0x74];
    R.FieldIsRead(ZERO, 0, 6, 7, false, 8);
  }

  lemma MinusOneVector()
    ensures R.FirstFrom(MINUS_ONE, 0) == Some(-1)
  {
    assert MINUS_ONE[1..7] == [0x72, 0x65, 0x73, 0x75, 0x6C, 0x74];
    assert MINUS_ONE[0..6][0] != 0x72;
    R.FieldIsRead(MINUS_ONE, 1, 8, 11, true, 13);
    assert R.Value(MINUS_ONE, 12, 13) == 1;
  }

  lemma RequestStart()
    ensures "GET /" + "get_status.cgi?name=admin&" + "loginuse=" + "admin" == "GET /get_status.cgi?name=admin&loginuse=admin"
  {
    assert "GET /" + "get_status.cgi?name=admin&" == "GET /get_status.cgi?name=admin&";
    assert "GET /get_status.cgi?name=admin&" + "loginuse=" == "GET /get_status.cgi?name=admin&loginuse=";
    assert "GET /get_status.cgi?name=admin&loginuse=" + "admin" == "GET /get_status.cgi?name=admin&loginuse=admin";
  }

  lemma RequestVector()
    ensures C.RequestText("get_status.cgi?name=admin&", "admin", "secret") ==
            "GET /get_status.cgi?name=admin&loginuse=admin&loginpas=secret&user=admin&pwd=888888&"
  {
    RequestStart();
    assert "GET /get_status.cgi?name=admin&loginuse=admin" + "&loginpas=" == "GET /get_status.cgi?name=admin&loginuse=admin&loginpas=";
    assert "GET /get_status.cgi?name=admin&loginuse=admin&loginpas=" + "secret" == "GET /get_status.cgi?name=admin&loginuse=admin&loginpas=secret";
    assert "GET /get_status.cgi?name=admin&loginuse=admin&loginpas=secret" + "&user=admin&pwd=888888&" == "GET /get_status.cgi?name=admin&loginuse=admin&loginpas=secret&user=admin&pwd=888888&";
  }

  // ---------------------------------------------------------------------------------
  // Media

  /** A final short start code of a keyframe, a longer one of another picture, and "not-video". */
  method InspectionVectors() returns (key: (bool, bool), picture: (bool, bool), other: (bool, bool))
    ensures key == (true, true) && picture == (true, false) && other == (false, false)
  {
    var valid, keyframe := H.InspectH264([0x00, 0x00, 0x01, 0x67]);
    assert H.KeyOctetsAt([0x00, 0x00, 0x01, 0x67], 0);
    key := (valid, keyframe);
    valid, keyframe := H.InspectH264([0x00, 0x00, 0x00, 0x01, 0x41]);
    assert H.UnitAt([0x00, 0x00, 0x00, 0x01, 0x41], 1);
    assert forall i: nat | H.UnitAt([0x00, 0x00, 0x00, 0x01, 0x41], i) :: i == 1;
    picture := (valid, keyframe);
    valid, keyframe := H.InspectH264([0x6E, 0x6F, 0x74, 0x2D, 0x76, 0x69, 0x64, 0x65, 0x6F]);
    other := (valid, keyframe);
  }
}
