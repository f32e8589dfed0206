/**
 The mixed envelopes of the wire: which packets travel clear, encrypted or both ways, and
 when the receiver recovers them.
 */
module Wire {
  import opened Octets
  import opened Bits
  import opened Cipher
  import opened Tables
  import Packets

  function Encrypt(key: bytes, clear: bytes): bytes {
    EncryptAfter(Shuffle(), HashOf(key), 0, clear)
  }

  function Decrypt(key: bytes, cipher: bytes): bytes {
    DecryptAfter(Shuffle(), HashOf(key), 0, cipher)
  }

  method EncryptPacket(key: bytes, clear: bytes) returns (output: bytes)
    ensures output == Encrypt(key, clear)
  {
    var hashed := KeyHash(key);
    output := [];
    var previous: byte := 0;
    for i := 0 to |clear|
      invariant output + EncryptAfter(Shuffle(), hashed, previous, clear[i..]) == Encrypt(key, clear)
    {
      var encoded := Xor(clear[i], Mask(Shuffle(), hashed, previous));
      assert clear[i..][1..] == clear[i + 1..];
      output := output + [encoded];
      previous := encoded;
    }
  }

  method DecryptPacket(key: bytes, cipher: bytes) returns (output: bytes)
    ensures output == Decrypt(key, cipher)
  {
    var hashed := KeyHash(key);
    output := [];
    var previous: byte := 0;
    for i := 0 to |cipher|
      invariant output + DecryptAfter(Shuffle(), hashed, previous, cipher[i..]) == Decrypt(key, cipher)
    {
      assert cipher[i..][1..] == cipher[i + 1..];
      output := output + [Xor(cipher[i], Mask(Shuffle(), hashed, previous))];
      previous := cipher[i];
    }
  }

  /** For every key, encryption and decryption undo each other in both directions. */
  lemma CipherIsBijective(key: bytes, text: bytes)
    ensures Decrypt(key, Encrypt(key, text)) == text && Encrypt(key, Decrypt(key, text)) == text
    ensures |Encrypt(key, text)| == |Decrypt(key, text)| == |text|
  {
    DecryptUndoes(Shuffle(), HashOf(key), 0, text);
    EncryptUndoes(Shuffle(), HashOf(key), 0, text);
  }

  /** The first `n` cipher octets depend on the first `n` clear octets only. */
  lemma CipherIsSequential(key: bytes, a: bytes, b: bytes, n: nat)
    requires n <= |a| && n <= |b| && a[..n] == b[..n]
    ensures n <= |Encrypt(key, a)| && n <= |Encrypt(key, b)| && Encrypt(key, a)[..n] == Encrypt(key, b)[..n]
  {
    EncryptAfterPrefix(Shuffle(), HashOf(key), 0, a, n);
    EncryptAfterPrefix(Shuffle(), HashOf(key), 0, b, n);
  }

  // ---------------------------------------------------------------------------------
  // Envelopes

  const ENCRYPTED_KINDS: set<bytes> := {
    [0xF1, 0x00], [0xF1, 0x20], [0xF1, 0x67], [0xF1, 0x70], [0xF1, 0x72],
    [0xF1, 0xD0], [0xF1, 0xD1], [0xF1, 0xE0], [0xF1, 0xE1], [0xF1, 0xF0]}

  const DUAL_KINDS: set<bytes> := {
    [0xF1, 0x41], [0xF1, 0x42], [0xF1, 0x43], [0xF1, 0x80], [0xF1, 0x83], [0xF1, 0xD1], [0xF1, 0xE1]}

  /** A packet starts with F1 and declares its own length. */
  predicate WellFormed(packet: bytes) {
    |packet| >= 4 && packet[0] == 0xF1 && Big16(packet[2], packet[3]) == |packet| - 4
  }

  /** The kinds by their second octet. */
  lemma KindsAre(second: byte)
    ensures [0xF1, second] in ENCRYPTED_KINDS <==> second in {0x00, 0x20, 0x67, 0x70, 0x72, 0xD0, 0xD1, 0xE0, 0xE1, 0xF0}
    ensures [0xF1, second] in DUAL_KINDS <==> second in {0x41, 0x42, 0x43, 0x80, 0x83, 0xD1, 0xE1}
  {
    assert [0xF1, second][1] == second;
  }

  method EncodeWirePackets(key: bytes, packet: bytes) returns (wire: seq<bytes>)
    ensures 1 <= |wire| <= 2
    ensures forall i | 0 <= i < |wire| :: wire[i] == packet || wire[i] == Encrypt(key, packet)
    ensures Packets.Kind(packet) in DUAL_KINDS ==> wire == [packet, Encrypt(key, packet)]
    ensures Packets.Kind(packet) !in DUAL_KINDS && Packets.Kind(packet) in ENCRYPTED_KINDS ==> wire == [Encrypt(key, packet)]
    ensures Packets.Kind(packet) !in DUAL_KINDS && Packets.Kind(packet) !in ENCRYPTED_KINDS ==> wire == [packet]
  {
    var encrypted := EncryptPacket(key, packet);
    if Packets.Kind(packet) in DUAL_KINDS {
      return [packet, encrypted];
    }
    if Packets.Kind(packet) in ENCRYPTED_KINDS {
      return [encrypted];
    }
    return [packet];
  }

  /** What the receiver makes of a datagram. */
  function Received(key: bytes, wire: bytes): Option<bytes> {
    var clear := if |wire| >= 1 && wire[0] == 0xF1 then wire else Decrypt(key, wire);
    if WellFormed(clear) then Some(clear) else None
  }

  method ReceiveClear(key: bytes, wire: bytes) returns (r: Option<bytes>)
    ensures r == Received(key, wire)
    ensures r.Some? ==> WellFormed(r.value) && (r.value == wire || Encrypt(key, r.value) == wire)
  {
    CipherIsBijective(key, wire);
    var clear := wire;
    if !(|wire| >= 1 && wire[0] == 0xF1) {
      clear := DecryptPacket(key, wire);
    }
    if |clear| < 4 || clear[0] != 0xF1 {
      return None;
    }
    var declared := Big16(clear[2], clear[3]);
    if declared != |clear| - 4 {
      return None;
    }
    return Some(clear);
  }

  /** The sum of the key's octets, modulo 256, picks the table's one zero. */
  predicate WeakKey(key: bytes) {
    Sum(key) % 0x100 == 27
  }

  lemma WeakKeyShows(key: bytes, packet: bytes)
    requires WellFormed(packet)
    ensures |Encrypt(key, packet)| == |packet|
    ensures Encrypt(key, packet)[0] == 0xF1 <==> WeakKey(key)
    ensures WeakKey(key) ==> Encrypt(key, packet) != packet
  {
    HashIsSum(key);
    StartsLikeClear(Shuffle(), HashOf(key), packet);
  }

  /**
   Every datagram produced for a well-formed packet is decoded to that packet: the clear
   form always, and the encrypted form if and only if the key is not a weak one.
   */
  lemma DatagramsAreDecoded(key: bytes, packet: bytes)
    requires WellFormed(packet)
    ensures Received(key, packet) == Some(packet)
    ensures Received(key, Encrypt(key, packet)) == Some(packet) <==> !WeakKey(key)
  {
    WeakKeyShows(key, packet);
    CipherIsBijective(key, packet);
  }
}
