/**
 From one session to the other: every packet a session builds is taken in by the receiver as
 that packet, clear or encrypted, and what it takes in is headed like one.
 */
module Datagrams {
  import opened Octets
  import opened Packets
  import opened Rendezvous
  import opened Wire
  import opened Cipher

  /** The octet F1, a kind, and a length field that counts what follows the four octets of the head. */
  predicate Headed(packet: bytes) {
    |packet| >= 4 && packet[0] == 0xF1 && packet[2] as int * 256 + packet[3] as int == |packet| - 4
  }

  /** The packet is taken in from its clear form, and from its encrypted form unless the key adds up to 27. */
  predicate Arrives(key: bytes, packet: bytes) {
    && Received(key, packet) == Some(packet)
    && (Received(key, Encrypt(key, packet)) == Some(packet) <==> Sum(key) % 256 != 27)
  }

  lemma HeadedArrives(key: bytes, packet: bytes)
    requires Headed(packet)
    ensures Arrives(key, packet)
  {
    DatagramsAreDecoded(key, packet);
  }

  /** What is taken in is the datagram, or what it decrypts to, and headed right; everything else is dropped. */
  lemma ReceivedIsExact(key: bytes, wire: bytes, packet: bytes)
    ensures Received(key, wire) == Some(packet) <==>
            Headed(packet) && packet == if |wire| >= 1 && wire[0] == 0xF1 then wire else Decrypt(key, wire)
  {
  }

  /** A clear datagram whose length field is not four less than its size is dropped. */
  lemma WrongLengthIsDropped(key: bytes, wire: bytes)
    requires |wire| >= 1 && wire[0] == 0xF1
    requires |wire| < 4 || wire[2] as int * 256 + wire[3] as int != |wire| - 4
    ensures Received(key, wire) == None
  {
  }

  // ---------------------------------------------------------------------------------
  // The packets a session builds

  lemma DataIsHeaded(channel: nat, sequence: nat, chunk: bytes)
    requires channel < CHANNELS && sequence < 0x1_0000 && |chunk| <= 1024
    ensures Headed(DataPacket(channel, sequence, chunk))
  {
    var p, size := DataPacket(channel, sequence, chunk), PutBig16(4 + |chunk|);
    assert |p| == 8 + |chunk|;
    assert p[0] == DATA[0] && p[2] == size[0] && p[3] == size[1];
  }

  lemma AckIsHeaded(channel: byte, high: byte, low: byte)
    ensures Headed(AckPacket(channel, high, low))
  {
    var p := AckPacket(channel, high, low);
    assert |p| == 10 && p[0] == ACK[0] && p[2] == 0x00 && p[3] == 0x06;
  }

  lemma BareIsHeaded(kind: byte)
    ensures Headed(Bare([0xF1, kind]))
  {
    var p := Bare([0xF1, kind]);
    assert |p| == 4 && p[0] == 0xF1 && p[2] == 0 && p[3] == 0;
  }

  lemma NamedAreHeaded(uid: bytes)
    requires |uid| == 20
    ensures Headed(Punch(uid)) && Headed(Ready(uid)) && Headed(RelayListAsk(uid))
  {
    assert Punch(uid)[0] == PUNCH[0] && Punch(uid)[2..4] == [0x00, 0x14];
    assert Ready(uid)[0] == READY[0] && Ready(uid)[2..4] == [0x00, 0x14];
    assert RelayListAsk(uid)[2..4] == [0x00, 0x14];
  }

  lemma LookupIsHeaded(uid: bytes, local: bytes)
    requires |uid| == 20 && |local| == 16
    ensures Headed(Lookup(uid, local))
  {
    var p := Lookup(uid, local);
    assert |p| == 40 && p[0] == LOOKUP[0] && p[2] == 0x00 && p[3] == 0x24;
  }

  lemma RelayPunchIsHeaded(uid: bytes, token: bytes)
    requires |uid| == 20 && |token| == 4
    ensures Headed(RelayPunch(uid, token))
  {
    var p := RelayPunch(uid, token);
    assert |p| == 32 && p[2] == 0x00 && p[3] == 0x1C;
  }

  lemma RelayRequestIsHeaded(uid: bytes, address: bytes, token: bytes)
    requires |uid| == 20 && |address| == 16 && |token| == 4
    ensures Headed(RelayRequest(uid, address, token))
  {
    var p := RelayRequest(uid, address, token);
    assert |p| == 44 && p[0] == RELAY_REQUEST[0] && p[2] == 0x00 && p[3] == 0x28;
  }

  /** Every packet of the rendezvous and of a session, for every camera, is taken in as it was sent. */
  lemma PacketsArrive(key: bytes, uid: bytes, local: bytes, token: bytes, channel: nat, sequence: nat, chunk: bytes)
    requires |uid| == 20 && |local| == 16 && |token| == 4
    requires channel < CHANNELS && sequence < 0x1_0000 && |chunk| <= 1024
    ensures Arrives(key, DataPacket(channel, sequence, chunk))
    ensures forall c: byte, high: byte, low: byte :: Arrives(key, AckPacket(c, high, low))
    ensures forall kind: byte :: Arrives(key, Bare([0xF1, kind]))
    ensures Arrives(key, Punch(uid)) && Arrives(key, Ready(uid)) && Arrives(key, RelayListAsk(uid))
    ensures Arrives(key, Lookup(uid, local))
    ensures Arrives(key, RelayPunch(uid, token)) && Arrives(key, RelayRequest(uid, local, token))
  {
    DataIsHeaded(channel, sequence, chunk);
    HeadedArrives(key, DataPacket(channel, sequence, chunk));
    forall c: byte, high: byte, low: byte
      ensures Arrives(key, AckPacket(c, high, low))
    {
      AckIsHeaded(c, high, low);
      HeadedArrives(key, AckPacket(c, high, low));
    }
    forall kind: byte
      ensures Arrives(key, Bare([0xF1, kind]))
    {
      BareIsHeaded(kind);
      HeadedArrives(key, Bare([0xF1, kind]));
    }
    NamedAreHeaded(uid);
    HeadedArrives(key, Punch(uid));
    HeadedArrives(key, Ready(uid));
    HeadedArrives(key, RelayListAsk(uid));
    LookupIsHeaded(uid, local);
    HeadedArrives(key, Lookup(uid, local));
    RelayPunchIsHeaded(uid, token);
    HeadedArrives(key, RelayPunch(uid, token));
    RelayRequestIsHeaded(uid, local, token);
    HeadedArrives(key, RelayRequest(uid, local, token));
  }
}
